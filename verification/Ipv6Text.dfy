/** IPv6 addresses as text: the demo's printer, and a reader that follows section 2.2 of RFC 4291 only. */
module Ipv6Text {
  import opened Common

  /** One 16-bit piece of an address. */
  type Group = g: int | 0 <= g < 65536

  // ----- hexadecimal

  function Digit(d: int): char
    requires 0 <= d < 16
  {
    if d < 10 then '0' + d as char else 'a' + (d - 10) as char
  }

  function DigitValue(c: char): Option<int> {
    if '0' <= c <= '9' then Some((c - '0') as int)
    else if 'a' <= c <= 'f' then Some((c - 'a') as int + 10)
    else if 'A' <= c <= 'F' then Some((c - 'A') as int + 10)
    else None
  }

  /** "%x": no leading zeros. */
  function Hex(v: nat): (s: string)
    ensures s != []
  {
    if v < 16 then [Digit(v)] else Hex(v / 16) + [Digit(v % 16)]
  }

  predicate LowerHex(c: char) { '0' <= c <= '9' || 'a' <= c <= 'f' }

  /** Lower-case digits, none of them a leading zero. */
  lemma {:induction false} HexPlain(v: nat)
    ensures forall i :: 0 <= i < |Hex(v)| ==> LowerHex(Hex(v)[i])
    ensures v > 0 ==> Hex(v)[0] != '0'
    ensures v == 0 ==> Hex(v) == "0"
  {
    if v >= 16 {
      HexPlain(v / 16);
    }
  }

  function HexValue(s: string): Option<nat> {
    if s == [] then Some(0)
    else
      match (HexValue(s[..|s| - 1]), DigitValue(s[|s| - 1]))
      case (Some(hi), Some(lo)) => if lo >= 0 then Some(16 * hi + lo) else None
      case _ => None
  }

  // ----- the reader

  /** The parts of s between its colons. */
  function Split(s: string): (r: seq<string>)
    ensures r != []
  {
    if s == [] then [[]]
    else
      var rest := Split(s[1..]);
      if s[0] == ':' then [[]] + rest else [[s[0]] + rest[0]] + rest[1..]
  }

  function ReadGroup(s: string): Option<Group> {
    if 1 <= |s| <= 4 then
      match HexValue(s)
      case Some(v) => if v < 65536 then Some(v) else None
      case None => None
    else None
  }

  function ReadAll(parts: seq<string>): Option<seq<Group>> {
    if parts == [] then Some([])
    else
      match (ReadGroup(parts[0]), ReadAll(parts[1..]))
      case (Some(g), Some(gs)) => Some([g] + gs)
      case _ => None
  }

  /** Groups separated by single colons; nothing at all is no group. */
  function ReadGroups(s: string): Option<seq<Group>> {
    if s == [] then Some([]) else ReadAll(Split(s))
  }

  /** Where the first "::" is. */
  function DoubleColon(s: string): (r: Option<nat>)
    ensures r.Some? ==> r.value + 2 <= |s| && s[r.value..r.value + 2] == "::"
  {
    if |s| < 2 then None
    else if s[0] == ':' && s[1] == ':' then Some(0)
    else
      match DoubleColon(s[1..])
      case None => None
      case Some(k) => Some(k + 1)
  }

  function Zeros(n: nat): (r: seq<Group>)
    ensures |r| == n
  {
    seq(n, _ => 0)
  }

  /** Eight groups, or fewer around one "::" that stands for one or more groups of zeros. */
  function Read(s: string): Option<seq<Group>> {
    match DoubleColon(s)
    case None =>
      var gs := ReadGroups(s);
      if gs.Some? && |gs.value| == 8 then gs else None
    case Some(k) =>
      match (ReadGroups(s[..k]), ReadGroups(s[k + 2..]))
      case (Some(left), Some(right)) =>
        if |left| + |right| < 8 then Some(left + Zeros(8 - |left| - |right|) + right) else None
      case _ => None
  }

  // ----- the printer

  /** What the printer's flag f says: no zero run yet, inside the first one, or past it. */
  datatype Run = Before | Inside(length: nat) | After

  /** What a group adds to the text, and what becomes of the flag. */
  function Piece(zero: bool, word: string, first: bool, run: Run): string {
    if zero && !run.After? then (if run.Before? then "::" else "")
    else if run.Inside? || first then word
    else ":" + word
  }

  function NextRun(zero: bool, run: Run): Run {
    if zero && !run.After? then Inside(if run.Inside? then run.length + 1 else 1)
    else if run.Inside? then After else run
  }

  /** ipaddr_sprintf, from group i on; words is how each group is written. */
  function PrintFrom(groups: seq<Group>, words: seq<string>, i: nat, run: Run): string
    requires i <= |groups| == |words|
    decreases |groups| - i
  {
    if i == |groups| then []
    else Piece(groups[i] == 0, words[i], i == 0, run)
         + PrintFrom(groups, words, i + 1, NextRun(groups[i] == 0, run))
  }

  function Words(groups: seq<Group>): (r: seq<string>)
    ensures |r| == |groups| && forall k :: 0 <= k < |r| ==> r[k] == Hex(groups[k])
  {
    seq(|groups|, k requires 0 <= k < |groups| => Hex(groups[k]))
  }

  function Print(groups: seq<Group>): string {
    PrintFrom(groups, Words(groups), 0, Before)
  }

  /** Words with a colon between any two. */
  function Join(words: seq<string>): string {
    if words == [] then []
    else if |words| == 1 then words[0]
    else words[0] + ":" + Join(words[1..])
  }

  // ----- reading back hexadecimal

  lemma DigitBack(d: int)
    requires 0 <= d < 16
    ensures DigitValue(Digit(d)) == Some(d) && Digit(d) != ':'
  {
  }

  lemma {:induction false} HexBack(v: nat)
    ensures HexValue(Hex(v)) == Some(v)
    ensures ':' !in Hex(v)
    ensures v < 16 ==> |Hex(v)| == 1
    ensures v < 256 ==> |Hex(v)| <= 2
    ensures v < 4096 ==> |Hex(v)| <= 3
    ensures v < 65536 ==> |Hex(v)| <= 4
  {
    DigitBack(v % 16);
    var s := Hex(v);
    if v < 16 {
      assert s[..0] == [];
    } else {
      HexBack(v / 16);
      assert s[..|s| - 1] == Hex(v / 16);
    }
  }

  lemma GroupBack(g: Group)
    ensures ReadGroup(Hex(g)) == Some(g) && ':' !in Hex(g) && 1 <= |Hex(g)| <= 4
  {
    HexBack(g);
  }

  // ----- reading back groups

  lemma {:induction false} SplitWord(w: string)
    requires ':' !in w
    ensures Split(w) == [w]
  {
    if w != [] {
      SplitWord(w[1..]);
      assert [w[0]] + w[1..] == w;
    }
  }

  lemma {:induction false} SplitColon(w: string, s: string)
    requires ':' !in w
    ensures Split(w + ":" + s) == [w] + Split(s)
  {
    var t := w + ":" + s;
    if w == [] {
      assert t[0] == ':' && t[1..] == s;
    } else {
      SplitColon(w[1..], s);
      assert t[0] == w[0] && t[1..] == w[1..] + ":" + s;
      assert [w[0]] + w[1..] == w;
    }
  }

  lemma ReadOne(w: string, g: Group)
    requires ReadGroup(w) == Some(g)
    ensures ReadAll([w]) == Some([g])
  {
    assert ReadAll([w][1..]) == Some([]) && [g] + [] == [g];
  }

  lemma {:induction false} JoinBack(groups: seq<Group>, words: seq<string>)
    requires words == Words(groups)
    ensures ReadGroups(Join(words)) == Some(groups)
    ensures groups != [] ==> Join(words) != [] && ReadAll(Split(Join(words))) == Some(groups)
  {
    if groups != [] {
      GroupBack(groups[0]);
      if |groups| == 1 {
        SplitWord(words[0]);
        ReadOne(words[0], groups[0]);
        assert groups == [groups[0]];
      } else {
        JoinBack(groups[1..], words[1..]);
        SplitColon(words[0], Join(words[1..]));
        var parts := [words[0]] + Split(Join(words[1..]));
        assert parts[1..] == Split(Join(words[1..])) && [groups[0]] + groups[1..] == groups;
      }
    }
  }

  // ----- finding the double colon

  /** No colon at either end and no two in a row. */
  ghost predicate Spaced(s: string) {
    && (s != [] ==> s[0] != ':' && s[|s| - 1] != ':')
    && forall i :: 0 <= i < |s| - 1 ==> s[i] != ':' || s[i + 1] != ':'
  }

  /** Words as groups are written: short and without a colon. */
  ghost predicate Short(words: seq<string>) {
    forall k :: 0 <= k < |words| ==> 1 <= |words[k]| <= 4 && ':' !in words[k]
  }

  lemma WordsShort(groups: seq<Group>)
    ensures Short(Words(groups))
  {
    forall k | 0 <= k < |groups| ensures 1 <= |Words(groups)[k]| <= 4 && ':' !in Words(groups)[k] {
      GroupBack(groups[k]);
    }
  }

  lemma {:induction false} JoinSpaced(words: seq<string>)
    requires Short(words)
    ensures Spaced(Join(words)) && (words != [] ==> Join(words) != [] && |Join(words)| <= 5 * |words| - 1)
  {
    if |words| > 1 {
      JoinSpaced(words[1..]);
    }
  }

  lemma {:induction false} NoDoubleColon(s: string)
    requires forall i :: 0 <= i < |s| - 1 ==> s[i] != ':' || s[i + 1] != ':'
    ensures DoubleColon(s) == None
  {
    if |s| >= 2 {
      NoDoubleColon(s[1..]);
    }
  }

  lemma {:induction false} FindDoubleColon(left: string, right: string)
    requires left != [] ==> left[|left| - 1] != ':'
    requires forall i :: 0 <= i < |left| - 1 ==> left[i] != ':' || left[i + 1] != ':'
    ensures DoubleColon(left + "::" + right) == Some(|left|)
  {
    var s := left + "::" + right;
    if left != [] {
      FindDoubleColon(left[1..], right);
      assert s[1..] == left[1..] + "::" + right;
      assert s[0] == left[0] && s[1] == if |left| > 1 then left[1] else ':';
    }
  }

  // ----- the shape of what is printed

  /** The first group from i on that is zero, or is not. */
  function Next(groups: seq<Group>, i: nat, zero: bool): (j: nat)
    requires i <= |groups|
    ensures i <= j <= |groups|
    ensures forall k :: i <= k < j ==> (groups[k] == 0) != zero
    ensures j < |groups| ==> (groups[j] == 0) == zero
    decreases |groups| - i
  {
    if i == |groups| || (groups[i] == 0) == zero then i else Next(groups, i + 1, zero)
  }

  /** Words i to j, with a colon in front of each but the very first of the address. */
  function Colons(words: seq<string>, i: nat, j: nat): string
    requires i <= j <= |words|
  {
    if 0 < i < j then ":" + Join(words[i..j]) else Join(words[i..j])
  }

  lemma JoinFirst(words: seq<string>, i: nat, j: nat)
    requires i < j <= |words|
    ensures Join(words[i..j]) == words[i] + Colons(words, i + 1, j)
  {
    assert words[i..j][1..] == words[i + 1..j];
    if i + 1 < j {
      Associative(words[i], ":", Join(words[i + 1..j]));
    }
  }

  lemma ColonsStep(words: seq<string>, i: nat, j: nat)
    requires i < j <= |words|
    ensures Colons(words, i, j) == (if i == 0 then words[i] else ":" + words[i]) + Colons(words, i + 1, j)
  {
    JoinFirst(words, i, j);
    Associative(":", words[i], Colons(words, i + 1, j));
  }

  lemma {:induction false} PrintAfter(groups: seq<Group>, words: seq<string>, i: nat)
    requires 0 < i <= |groups| == |words|
    ensures PrintFrom(groups, words, i, After) == Colons(words, i, |words|)
    decreases |groups| - i
  {
    if i < |groups| {
      PrintAfter(groups, words, i + 1);
      ColonsStep(words, i, |words|);
    }
  }

  /** The first non-zero group after the run goes without a colon of its own. */
  lemma PrintResume(groups: seq<Group>, words: seq<string>, i: nat, n: nat)
    requires i < |groups| == |words| && groups[i] != 0
    ensures PrintFrom(groups, words, i, Inside(n)) == Join(words[i..])
  {
    PrintAfter(groups, words, i + 1);
    JoinFirst(words, i, |words|);
    assert words[i..|words|] == words[i..];
  }

  lemma NoPiece(s: string)
    ensures "" + s == s
  {
  }

  lemma {:induction false} PrintInside(groups: seq<Group>, words: seq<string>, i: nat, n: nat)
    requires i <= |groups| == |words|
    ensures PrintFrom(groups, words, i, Inside(n)) == Join(words[Next(groups, i, false)..])
    decreases |groups| - i
  {
    if i < |groups| {
      if groups[i] == 0 {
        PrintInside(groups, words, i + 1, n + 1);
        NoPiece(PrintFrom(groups, words, i + 1, Inside(n + 1)));
      } else {
        PrintResume(groups, words, i, n);
      }
    }
  }

  /** The shortened run and what follows it. */
  function Tail(groups: seq<Group>, words: seq<string>, a: nat): string
    requires a <= |groups| == |words|
  {
    if a == |groups| then [] else "::" + Join(words[Next(groups, a, false)..])
  }

  lemma {:induction false} PrintBefore(groups: seq<Group>, words: seq<string>, i: nat)
    requires i <= |groups| == |words|
    ensures var a := Next(groups, i, true);
            PrintFrom(groups, words, i, Before) == Colons(words, i, a) + Tail(groups, words, a)
    decreases |groups| - i
  {
    if i < |groups| && groups[i] != 0 {
      PrintBefore(groups, words, i + 1);
      var a := Next(groups, i, true);
      ColonsStep(words, i, a);
      Associative(Piece(false, words[i], i == 0, Before), Colons(words, i + 1, a), Tail(groups, words, a));
    } else {
      assert Colons(words, i, i) == [];
      if i < |groups| {
        PrintInside(groups, words, i + 1, 1);
      }
    }
  }

  /** Where the shortened run starts and ends, if there is a zero group at all. */
  ghost predicate FirstRun(groups: seq<Group>, a: nat, b: nat) {
    && a < b <= |groups|
    && (forall k :: 0 <= k < a ==> groups[k] != 0)
    && (forall k :: a <= k < b ==> groups[k] == 0)
    && (b < |groups| ==> groups[b] != 0)
  }

  /** The printed text: the groups up to the first zero, and, where there is one, "::" in place of
      the whole run it starts. */
  lemma Printed(groups: seq<Group>, words: seq<string>) returns (a: nat, b: nat)
    requires |words| == |groups|
    ensures a <= b <= |groups|
    ensures if a == |groups| then PrintFrom(groups, words, 0, Before) == Join(words)
            else FirstRun(groups, a, b)
                 && PrintFrom(groups, words, 0, Before) == Join(words[..a]) + "::" + Join(words[b..])
  {
    PrintBefore(groups, words, 0);
    a := Next(groups, 0, true);
    b := Next(groups, a, false);
    Prefix(words, a);
    if a < |groups| {
      assert FirstRun(groups, a, b);
      Associative(Join(words[..a]), "::", Join(words[b..]));
    } else {
      assert Join(words) + [] == Join(words);
    }
  }

  lemma Prefix(words: seq<string>, a: nat)
    requires a <= |words|
    ensures words[0..a] == words[..a] && words[..|words|] == words
  {
  }

  // ----- reading back an address

  lemma ReadWhole(groups: seq<Group>)
    requires |groups| == 8
    ensures Read(Join(Words(groups))) == Some(groups)
  {
    var words := Words(groups);
    WordsShort(groups);
    JoinSpaced(words);
    NoDoubleColon(Join(words));
    JoinBack(groups, words);
  }

  lemma ReadSplit(s: string, k: nat, left: seq<Group>, right: seq<Group>)
    requires DoubleColon(s) == Some(k)
    requires ReadGroups(s[..k]) == Some(left) && ReadGroups(s[k + 2..]) == Some(right) && |left| + |right| < 8
    ensures Read(s) == Some(left + Zeros(8 - |left| - |right|) + right)
  {
  }

  lemma Halves(l: string, r: string)
    ensures (l + "::" + r)[..|l|] == l && (l + "::" + r)[|l| + 2..] == r
  {
  }

  lemma ReadShortened(left: seq<Group>, right: seq<Group>, l: string, r: string)
    requires |left| + |right| < 8 && l == Join(Words(left)) && r == Join(Words(right))
    ensures Read(l + "::" + r) == Some(left + Zeros(8 - |left| - |right|) + right)
  {
    WordsShort(left);
    JoinSpaced(Words(left));
    FindDoubleColon(l, r);
    JoinBack(left, Words(left));
    JoinBack(right, Words(right));
    Halves(l, r);
    ReadSplit(l + "::" + r, |l|, left, right);
  }

  lemma Restored(groups: seq<Group>, a: nat, b: nat)
    requires FirstRun(groups, a, b)
    ensures groups == groups[..a] + Zeros(b - a) + groups[b..]
    ensures Words(groups)[..a] == Words(groups[..a]) && Words(groups)[b..] == Words(groups[b..])
  {
  }

  lemma ShortBack(groups: seq<Group>, a: nat, b: nat)
    requires |groups| == 8 && FirstRun(groups, a, b)
    ensures Read(Join(Words(groups)[..a]) + "::" + Join(Words(groups)[b..])) == Some(groups)
  {
    Restored(groups, a, b);
    assert 8 - |groups[..a]| - |groups[b..]| == b - a;
    ReadShortened(groups[..a], groups[b..], Join(Words(groups)[..a]), Join(Words(groups)[b..]));
  }

  /** Main result: reading what was printed gives the address back, for every address. */
  lemma RoundTrip(groups: seq<Group>)
    requires |groups| == 8
    ensures Read(Print(groups)) == Some(groups)
  {
    var a, b := Printed(groups, Words(groups));
    if a == 8 {
      ReadWhole(groups);
    } else {
      ShortBack(groups, a, b);
    }
  }

  // ----- how long the text is, and how many double colons it has

  predicate PairAt(s: string, i: nat) {
    i + 1 < |s| && s[i] == ':' && s[i + 1] == ':'
  }

  lemma OnePair(left: string, right: string, i: nat)
    requires Spaced(left) && Spaced(right) && PairAt(left + "::" + right, i)
    ensures i == |left|
  {
  }

  /** The text fits 39 characters and has at most one "::". */
  lemma AtMost39(groups: seq<Group>)
    requires |groups| == 8
    ensures |Print(groups)| <= 39
    ensures forall i, j :: PairAt(Print(groups), i) && PairAt(Print(groups), j) ==> i == j
  {
    var words := Words(groups);
    var a, b := Printed(groups, words);
    WordsShort(groups);
    if a == 8 {
      JoinSpaced(words);
    } else {
      JoinSpaced(words[..a]);
      JoinSpaced(words[b..]);
      forall i: nat | PairAt(Print(groups), i) ensures i == |Join(words[..a])| {
        OnePair(Join(words[..a]), Join(words[b..]), i);
      }
    }
  }

  // ----- the method

  /** ipaddr_sprintf, appending each piece at buf[len]; the address is its 16 bytes. */
  method IpaddrSprintf(addr: array<int>) returns (buf: string)
    requires addr.Length == 16 && forall i :: 0 <= i < 16 ==> 0 <= addr[i] < 256
    ensures buf == Print(Groups(addr[..]))
    ensures |buf| <= 39
  {
    ghost var groups := Groups(addr[..]);
    ghost var words := Words(groups);
    buf := [];
    var i, f := 0, 0;
    ghost var k := 0;
    while i < 16
      invariant 0 <= k <= 8 && i == 2 * k && f >= -1
      invariant Print(groups) == buf + PrintFrom(groups, words, k, RunOf(f))
    {
      var a := addr[i] * 256 + addr[i + 1];
      ghost var before, run := buf, RunOf(f);
      if a == 0 && f >= 0 {
        if f == 0 {
          buf := buf + "::";
        }
        f := f + 1;
      } else {
        if f > 0 {
          f := -1;
        } else if i > 0 {
          buf := buf + ":";
        }
        buf := buf + Hex(a);
      }
      PrintStep(groups, words, k, run, before, buf, RunOf(f));
      i := i + 2;
      k := k + 1;
    }
    AtMost39(groups);
  }

  lemma PrintStep(groups: seq<Group>, words: seq<string>, k: nat, run: Run, before: string, after: string, next: Run)
    requires k < |groups| == |words| && next == NextRun(groups[k] == 0, run)
    requires after == before + Piece(groups[k] == 0, words[k], k == 0, run)
    ensures before + PrintFrom(groups, words, k, run) == after + PrintFrom(groups, words, k + 1, next)
  {
    Associative(before, Piece(groups[k] == 0, words[k], k == 0, run), PrintFrom(groups, words, k + 1, next));
  }

  ghost function RunOf(f: int): Run
    requires f >= -1
  {
    if f == 0 then Before else if f > 0 then Inside(f) else After
  }

  ghost function Groups(bytes: seq<int>): (r: seq<Group>)
    requires |bytes| == 16 && forall i :: 0 <= i < 16 ==> 0 <= bytes[i] < 256
    ensures |r| == 8 && forall k :: 0 <= k < 8 ==> r[k] == bytes[2 * k] * 256 + bytes[2 * k + 1]
  {
    seq(8, k requires 0 <= k < 8 => bytes[2 * k] * 256 + bytes[2 * k + 1])
  }
}
