/** The host's serial_input: reads whatever the stream has, keeps a partial frame in a static
    buffer between calls, and puts a dangling ESC back. */
module SlipReader {
  import opened Common
  import opened SlipCodec

  class SerialInput {
    const verbose: nat
    const inbuf: array<Byte>
    var inbufptr: nat
    var putBack: bool          // ungetc left one ESC in front of the stream

    ghost predicate Valid()
      reads this
    {
      inbuf.Length == BUF_SIZE && inbufptr < BUF_SIZE
    }

    ghost function State(): Reader
      requires Valid()
      reads this, inbuf
    {
      Reader(inbuf[..inbufptr], putBack)
    }

    constructor (verbose: nat)
      ensures Valid() && fresh(inbuf) && this.verbose == verbose && State() == Reader([], false)
    {
      this.verbose := verbose;
      inbuf := new Byte[BUF_SIZE](_ => 0);
      inbufptr, putBack := 0, false;
    }

    /** The buffer as the next read will find it: a full one is about to be dropped. */
    ghost function Buffered(): seq<Byte>
      requires inbuf.Length == BUF_SIZE && inbufptr <= BUF_SIZE
      reads this, inbuf
    {
      if inbufptr >= BUF_SIZE then [] else inbuf[..inbufptr]
    }

    method IsSensibleString(len: nat) returns (r: bool)
      requires len <= inbuf.Length
      ensures r <==> Sensible(inbuf[..len])
    {
      var i := 1;
      while i < len
        invariant 1 <= i && (len <= 1 || i <= len)
        invariant forall j :: 1 <= j < i && j < len ==> SensibleByte(inbuf[j])
      {
        if !(inbuf[i] == 0 || inbuf[i] == 13 || inbuf[i] == 10 || inbuf[i] == 9) {
          if inbuf[i] < 32 || 126 < inbuf[i] {
            assert inbuf[..len][i] == inbuf[i];
            return false;
          }
        }
        i := i + 1;
      }
      return true;
    }

    /** END with a non-empty buffer. */
    method CompleteFrame() returns (e: Event)
      requires Valid() && inbufptr > 0
      modifies this`inbufptr
      ensures inbufptr == 0 && e == Classify(old(inbuf[..inbufptr]))
    {
      var f := inbuf[..inbufptr];
      if inbuf[0] == 33 {
        e := Command(f);
      } else if inbuf[0] == 63 {
        e := Query(f);
      } else if inbuf[0] == 13 {
        e := Debug(f);
      } else {
        var text := IsSensibleString(inbufptr);
        e := if text then Text(f) else Packet(f);
      }
      inbufptr := 0;
    }

    method StoreByte(c: Byte)
      requires Valid()
      modifies this`inbufptr, inbuf
      ensures inbufptr <= BUF_SIZE
      ensures Buffered() == Store(verbose, old(inbuf[..inbufptr]), c)
    {
      ghost var before := inbuf[..inbufptr];
      inbuf[inbufptr] := c;
      inbufptr := inbufptr + 1;
      assert inbuf[..inbufptr] == before + [c];
      if verbose != 4 && verbose >= 2 {
        if c == NEWLINE {
          var text := IsSensibleString(inbufptr);
          if text {
            inbufptr := 0;
          }
        }
      }
    }

    /** One call, with `chunk` the bytes that have arrived; returns the frames it completes. */
    method Read(chunk: seq<Byte>) returns (events: seq<Event>)
      requires Valid() && chunk != []
      modifies this`inbufptr, this`putBack, inbuf
      ensures Valid()
      ensures (State(), events) == FeedAll(verbose, old(State()), chunk)
    {
      ghost var goal := FeedAll(verbose, State(), chunk);
      var input := (if putBack then [SLIP_ESC] else []) + chunk;
      assert putBack ==> input[1..] == chunk;
      assert FeedAll(verbose, Reader(inbuf[..inbufptr], false), input) == goal by {
        if putBack {
          assert [] + goal.1 == goal.1;
        } else {
          assert input == chunk;
        }
      }
      events := [];
      var pos := 0;
      assert input[0..] == input && [] + goal.1 == goal.1;
      while true
        invariant 0 <= pos <= |input| && inbufptr <= BUF_SIZE && inbuf.Length == BUF_SIZE
        invariant var (r, e) := FeedAll(verbose, Reader(Buffered(), false), input[pos..]);
                  goal == (r, events + e)
        decreases |input| - pos
      {
        if inbufptr >= BUF_SIZE {
          inbufptr := 0;
        }
        ghost var rest, r0, e0 := input[pos..], Reader(inbuf[..inbufptr], false), events;
        if pos == |input| {
          putBack := false;
          return;
        }
        var c := input[pos];
        pos := pos + 1;
        assert rest[0] == c && rest[1..] == input[pos..];
        if c == SLIP_END {
          if inbufptr > 0 {
            var e := CompleteFrame();
            events := events + [e];
          }
          Advance(verbose, goal, r0, e0, rest, Reader(Buffered(), false), events);
        } else {
          if c == SLIP_ESC {
            if pos == |input| {
              assert FeedAll(verbose, r0, rest) == (Reader(r0.inbuf, true), []) by {
                FeedOne(verbose, r0, c);
                assert rest == [c];
              }
              assert events + [] == events;
              putBack := true;
              return;
            }
            ghost var rest1 := input[pos..];
            c := input[pos];
            pos := pos + 1;
            assert rest1[0] == c && rest1[1..] == input[pos..];
            Advance(verbose, goal, r0, e0, rest, Reader(r0.inbuf, true), e0);
            rest, r0 := rest1, Reader(r0.inbuf, true);
            c := if c == SLIP_ESC_END then SLIP_END else if c == SLIP_ESC_ESC then SLIP_ESC else c;
          }
          StoreByte(c);
          Advance(verbose, goal, r0, e0, rest, Reader(Buffered(), false), events);
        }
      }
    }
  }

  /** One step of the automaton, with the events seen so far. */
  lemma Advance(verbose: nat, goal: (Reader, seq<Event>), r: Reader, e: seq<Event>, rest: seq<Byte>,
                r': Reader, e': seq<Event>)
    requires rest != []
    requires var (x, y) := FeedAll(verbose, r, rest); goal == (x, e + y)
    requires var (x, y) := Feed(verbose, r, rest[0]); r' == x && e' == e + y
    ensures var (x, y) := FeedAll(verbose, r', rest[1..]); goal == (x, e' + y)
  {
    var (x1, y1) := Feed(verbose, r, rest[0]);
    var (x2, y2) := FeedAll(verbose, x1, rest[1..]);
    assert e + (y1 + y2) == (e + y1) + y2;
  }
}
