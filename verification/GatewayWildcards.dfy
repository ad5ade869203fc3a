/** The wildcard test of a subscription, against the levels of its topic name. */
module GatewayWildcards {
  import opened GatewaySpec

  /** The levels of a topic name: what stands between its slashes, empty levels included. */
  function Levels(name: string): (ls: seq<string>)
    ensures ls != []
  {
    if name == "" then [""]
    else
      var rest := Levels(name[1..]);
      if name[0] == '/' then [""] + rest else [[name[0]] + rest[0]] + rest[1..]
  }

  function Join(ls: seq<string>): string
    requires ls != []
  {
    if |ls| == 1 then ls[0] else ls[0] + "/" + Join(ls[1..])
  }

  /** Levels is the inverse of joining: no level holds a slash, and joined they are the name. */
  lemma {:induction false} LevelsSplit(name: string)
    ensures Join(Levels(name)) == name
    ensures forall l :: l in Levels(name) ==> '/' !in l
  {
    if name != "" {
      LevelsSplit(name[1..]);
      var rest := Levels(name[1..]);
      assert name == [name[0]] + name[1..];
      if name[0] == '/' {
        assert ([""] + rest)[1..] == rest;
      } else {
        var ls := [[name[0]] + rest[0]] + rest[1..];
        assert ls[1..] == rest[1..];
        assert |rest| > 1 ==> Join(ls) == [name[0]] + (rest[0] + "/" + Join(rest[1..]));
      }
    }
  }

  /** c stands alone at position i: between two slashes or ends of the name. */
  predicate Alone(name: string, i: nat, c: char) {
    && i < |name| && name[i] == c
    && (i == 0 || name[i - 1] == '/') && (i + 1 == |name| || name[i + 1] == '/')
  }

  /** The first level is c alone, and a later level is, exactly by position. */
  lemma {:induction false} LevelsAlone(name: string, c: char)
    requires c != '/'
    ensures Levels(name)[0] == [c] <==> Alone(name, 0, c)
    ensures [c] in Levels(name)[1..] <==> exists i: nat :: i > 0 && Alone(name, i, c)
  {
    if name != "" {
      var tail := name[1..];
      var rest := Levels(tail);
      LevelsAlone(tail, c);
      assert forall i: nat :: i > 1 ==> (Alone(name, i, c) <==> Alone(tail, i - 1, c));
      assert forall i: nat :: i > 0 ==> (Alone(tail, i, c) <==> Alone(name, i + 1, c));
      if name[0] == '/' {
        assert Levels(name)[1..] == rest;
        assert Alone(name, 1, c) <==> Alone(tail, 0, c);
        assert [c] in rest <==> rest[0] == [c] || [c] in rest[1..];
      } else {
        assert Levels(name)[1..] == rest[1..];
        assert !Alone(name, 1, c);
        EmptyFirstLevel(tail);
        FirstIs(name[0], rest[0], c);
        assert Levels(name)[0] == [name[0]] + rest[0];
      }
    }
  }

  lemma FirstIs(x: char, l: string, c: char)
    ensures [x] + l == [c] <==> x == c && l == ""
  {
    assert ([x] + l)[0] == x && |[x] + l| == 1 + |l|;
  }

  lemma EmptyFirstLevel(name: string)
    ensures Levels(name)[0] == "" <==> name == "" || name[0] == '/'
  {
  }

  /** The eight tests of the handler, for one wildcard character. */
  lemma AloneTests(name: string, c: char)
    requires c != '/'
    ensures (exists i: nat :: Alone(name, i, c)) <==>
              || name == [c] || Contains(name, ['/', c, '/'])
              || (|name| >= 2 && name[|name| - 2..] == ['/', c]) || [c, '/'] <= name
  {
    if exists i: nat :: Alone(name, i, c) {
      var i: nat :| Alone(name, i, c);
      if i > 0 && i + 1 < |name| {
        assert ContainsAt(name, ['/', c, '/'], i - 1);
      }
    }
    if Contains(name, ['/', c, '/']) {
      var i :| 0 <= i <= |name| && ContainsAt(name, ['/', c, '/'], i);
      assert name[i..i + 3][1] == name[i + 1] && name[i..i + 3][0] == name[i] && name[i..i + 3][2] == name[i + 2];
      assert Alone(name, i + 1, c);
    } else if |name| >= 2 && name[|name| - 2..] == ['/', c] {
      assert name[|name| - 2..][0] == name[|name| - 2] && name[|name| - 2..][1] == name[|name| - 1];
      assert Alone(name, |name| - 1, c);
    } else if name == [c] || [c, '/'] <= name {
      assert Alone(name, 0, c);
    }
  }

  lemma LevelIsAlone(name: string, c: char)
    requires c != '/'
    ensures [c] in Levels(name) <==> exists i: nat :: Alone(name, i, c)
  {
    LevelsAlone(name, c);
    assert [c] in Levels(name) <==> Levels(name)[0] == [c] || [c] in Levels(name)[1..];
  }

  predicate Wild(name: string) { "#" in Levels(name) || "+" in Levels(name) }

  /** Main result: the handler's test finds a wildcard exactly if some level of the name is "#" or "+". */
  lemma HasWildcardExact(name: string)
    ensures HasWildcard(name) <==> Wild(name)
  {
    LevelIsAlone(name, '#');
    LevelIsAlone(name, '+');
    AloneTests(name, '#');
    AloneTests(name, '+');
  }
}
