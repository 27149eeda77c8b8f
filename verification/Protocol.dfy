/** Frames over a byte stream: however the network cuts the bytes up, the same messages come out. */
module Protocol {
  import opened Keys
  import opened Entries
  import opened Bytes

  const MaxFrameSize: nat := 0x80_0000
  const LengthPrefixSize: nat := 4
  const ReadChunk: nat := 4096

  /** Network byte order: highest byte first. */
  function Be(v: nat, w: nat): (s: seq<Byte>)
    ensures |s| == w
  {
    if w == 0 then [] else Be(v / 256, w - 1) + [v % 256]
  }

  function ReadBe(s: seq<Byte>, w: nat): nat
    requires w <= |s|
  {
    if w == 0 then 0 else 256 * ReadBe(s, w - 1) + s[w - 1]
  }

  lemma {:induction false} ReadBeIs(v: nat, s: seq<Byte>, w: nat)
    requires w <= |s| && s[..w] == Be(v, w) && v < Pow256(w)
    ensures ReadBe(s, w) == v
  {
    if w > 0 {
      assert s[w - 1] == s[..w][w - 1] == v % 256;
      assert s[..w - 1] == s[..w][..w - 1] == Be(v / 256, w - 1);
      ReadBeIs(v / 256, s, w - 1);
    }
  }

  function Be32(v: U32): (s: seq<Byte>)
    ensures |s| == 4
  {
    Be(v, 4)
  }

  function BeAt(s: seq<Byte>): nat
    requires |s| >= 4
  {
    ReadBe(s, 4)
  }

  lemma BeRoundTrip(v: U32, s: seq<Byte>)
    requires |s| >= 4 && s[..4] == Be32(v)
    ensures BeAt(s) == v
  {
    Powers();
    ReadBeIs(v, s, 4);
  }

  /** write_frame: an oversized payload is refused before a byte is sent. */
  function Frame(payload: seq<Byte>): (r: Option<seq<Byte>>)
    ensures r.Some? <==> |payload| <= MaxFrameSize
    ensures r.Some? ==> |r.value| == LengthPrefixSize + |payload|
  {
    if |payload| > MaxFrameSize then None else Some(Be32(|payload|) + payload)
  }

  // -- What a stream of bytes means, however it arrives ---------------------------------------------

  /** How a stream ends: between frames, inside one, or at a length over the cap. */
  datatype End = AtBoundary | CutShort | TooLong

  datatype Messages = Messages(payloads: seq<seq<Byte>>, end: End)

  /** A whole frame at the front of a stream. */
  predicate HasFrame(s: seq<Byte>, cap: nat) {
    |s| >= 4 && BeAt(s) <= cap && |s| >= 4 + BeAt(s)
  }

  function EndOf(s: seq<Byte>, cap: nat): End
    requires !HasFrame(s, cap)
  {
    if s == [] then AtBoundary else if |s| >= 4 && BeAt(s) > cap then TooLong else CutShort
  }

  function Parse(s: seq<Byte>, cap: nat): Messages {
    if !HasFrame(s, cap) then Messages([], EndOf(s, cap))
    else
      var n := 4 + BeAt(s);
      var rest := Parse(s[n..], cap);
      Messages([s[4..n]] + rest.payloads, rest.end)
  }

  /** Frames sent one after another. */
  function Sent(payloads: seq<seq<Byte>>): seq<Byte>
    requires forall i :: 0 <= i < |payloads| ==> |payloads[i]| <= MaxFrameSize
  {
    if payloads == [] then [] else Frame(payloads[0]).value + Sent(payloads[1..])
  }

  lemma FrameFirst(p: seq<Byte>, rest: seq<Byte>)
    requires |p| <= MaxFrameSize
    ensures var s := Be32(|p|) + p + rest;
            HasFrame(s, MaxFrameSize) && BeAt(s) == |p| && s[4..4 + |p|] == p && s[4 + |p|..] == rest
  {
    hide Be32, BeAt;
    var s := Be32(|p|) + p + rest;
    assert s[..4] == Be32(|p|);
    BeRoundTrip(|p|, s);
  }

  /** What was sent is what is received, message by message, with a clean end. */
  lemma {:induction false} SentParses(payloads: seq<seq<Byte>>)
    requires forall i :: 0 <= i < |payloads| ==> |payloads[i]| <= MaxFrameSize
    ensures Parse(Sent(payloads), MaxFrameSize) == Messages(payloads, AtBoundary)
  {
    hide Be32, BeAt;
    if payloads != [] {
      FrameFirst(payloads[0], Sent(payloads[1..]));
      SentParses(payloads[1..]);
      assert payloads == [payloads[0]] + payloads[1..];
    }
  }

  /** A connection dropped inside a frame loses that frame and no other, and is not taken for a hang-up. */
  lemma {:induction false} CutParses(payloads: seq<seq<Byte>>, last: seq<Byte>, n: nat)
    requires (forall i :: 0 <= i < |payloads| ==> |payloads[i]| <= MaxFrameSize) && |last| <= MaxFrameSize
    requires 0 < n < 4 + |last|
    ensures Parse(Sent(payloads) + Frame(last).value[..n], MaxFrameSize) == Messages(payloads, CutShort)
  {
    hide Be32, BeAt;
    var tail := Frame(last).value[..n];
    if payloads == [] {
      assert Sent(payloads) + tail == tail;
      if n >= 4 {
        assert tail[..4] == Be32(|last|);
        BeRoundTrip(|last|, tail);
      }
    } else {
      var rest := Sent(payloads[1..]) + tail;
      assert Sent(payloads) + tail == Frame(payloads[0]).value + rest;
      FrameFirst(payloads[0], rest);
      CutParses(payloads[1..], last, n);
      assert payloads == [payloads[0]] + payloads[1..];
    }
  }

  // -- The reader ---------------------------------------------------------------------------------------

  /** What the socket does next: bytes are there, the wait times out, or it fails. After the last, the peer has
      closed. */
  datatype Arrival = Bytes(data: seq<Byte>) | Idle(cancelled: bool) | Failure

  function Remaining(script: seq<Arrival>): seq<Byte> {
    if script == [] then []
    else if script[0].Bytes? then script[0].data + Remaining(script[1..])
    else Remaining(script[1..])
  }

  predicate ScriptOk(script: seq<Arrival>) {
    forall i :: 0 <= i < |script| && script[i].Bytes? ==> script[i].data != []
  }

  /** The arrivals from the first failure, or wait that ends with the reader told to stop, on. */
  ghost function FromStop(script: seq<Arrival>): seq<Arrival> {
    if script == [] || script[0] == Failure || script[0] == Idle(true) then script else FromStop(script[1..])
  }

  /** The bytes that arrive before that. */
  ghost function BeforeStop(script: seq<Arrival>): seq<Byte> {
    if script == [] || script[0] == Failure || script[0] == Idle(true) then []
    else (if script[0].Bytes? then script[0].data else []) + BeforeStop(script[1..])
  }

  datatype Fill = Filled | PeerClosed | Cancelled | Failed

  datatype FrameStatus = Complete | Closed | Stopped | Corrupt | IoError

  class FrameReader {
    const cap: nat
    var script: seq<Arrival>
    var buf: seq<Byte>

    ghost predicate Valid()
      reads this
    {
      ScriptOk(script)
    }

    /** Every byte received or still to come that no frame has been made of. */
    ghost function Pending(): seq<Byte>
      reads this
    {
      buf + Remaining(script)
    }

    /** The bytes to be had before a failure or a request to stop. */
    ghost function InReach(): seq<Byte>
      reads this
    {
      buf + BeforeStop(script)
    }

    constructor (arrivals: seq<Arrival>, maxFrame: nat)
      requires ScriptOk(arrivals)
      ensures Valid() && cap == maxFrame && script == arrivals && Pending() == Remaining(arrivals)
    {
      cap, script, buf := maxFrame, arrivals, [];
    }

    /** recv_some: up to ask bytes of what is there. */
    method Receive(ask: nat) returns (got: seq<Byte>)
      requires Valid() && ask > 0 && script != [] && script[0].Bytes?
      modifies `script
      ensures Valid() && 0 < |got| <= ask && got + Remaining(script) == Remaining(old(script))
      ensures |Remaining(script)| < |Remaining(old(script))|
      ensures |script| <= |old(script)| && forall a :: a in script && !a.Bytes? ==> a in old(script)
      ensures got + BeforeStop(script) == BeforeStop(old(script)) && FromStop(script) == FromStop(old(script))
    {
      var data := script[0].data;
      if |data| <= ask {
        got, script := data, script[1..];
      } else {
        got := data[..ask];
        script := [Bytes(data[ask..])] + script[1..];
        assert script[1..] == old(script)[1..];
        assert got + (data[ask..] + Remaining(script[1..])) == data + Remaining(script[1..]);
        assert got + (data[ask..] + BeforeStop(script[1..])) == data + BeforeStop(script[1..]);
      }
    }

    /** fill_to: read until the buffer holds this much, losing nothing however it ends. It comes short exactly when
        the bytes in reach do, and says what cut them off, which it then leaves behind. */
    method FillTo(wanted: nat) returns (fill: Fill)
      requires Valid()
      modifies this
      ensures Valid() && Pending() == old(Pending()) && |script| <= |old(script)|
      ensures forall a :: a in script && !a.Bytes? ==> a in old(script)
      ensures fill == Filled <==> |old(InReach())| >= wanted
      ensures fill == Filled ==> |buf| >= wanted
      ensures fill == PeerClosed ==> script == [] == old(FromStop(script)) && |buf| < wanted
      ensures fill == Cancelled ==> old(FromStop(script)) == [Idle(true)] + script && buf == old(InReach())
      ensures fill == Failed ==> old(FromStop(script)) == [Failure] + script && buf == old(InReach())
      ensures fill == Filled || fill == PeerClosed ==>
        InReach() == old(InReach()) && FromStop(script) == old(FromStop(script))
    {
      while |buf| < wanted
        invariant Valid() && Pending() == old(Pending()) && |script| <= |old(script)|
        invariant InReach() == old(InReach()) && FromStop(script) == old(FromStop(script))
        invariant forall a :: a in script && !a.Bytes? ==> a in old(script)
        decreases |script| + |Remaining(script)|
      {
        if script == [] {
          return PeerClosed;
        }
        match script[0] {
          case Idle(cancelled) =>
            if cancelled {
              script := script[1..];
              return Cancelled;
            }
            assert [] + BeforeStop(script[1..]) == BeforeStop(script[1..]);
            script := script[1..];
          case Failure =>
            script := script[1..];
            return Failed;
          case Bytes(_) =>
            var ask := if wanted - |buf| > ReadChunk then wanted - |buf| else ReadChunk;
            ghost var before := buf;
            var got := Receive(ask);
            buf := buf + got;
            assert before + (got + Remaining(script)) == buf + Remaining(script);
            assert before + (got + BeforeStop(script)) == buf + BeforeStop(script);
        }
      }
      fill := Filled;
    }

    /** read_frame: one whole message, or why there is none; only a message takes bytes. A message in reach always
        comes out; short of one it is the first failure or request to stop that is reported, if there is one. */
    method ReadFrame() returns (status: FrameStatus, payload: seq<Byte>)
      requires Valid()
      modifies this
      ensures Valid() && |script| <= |old(script)| && forall a :: a in script && !a.Bytes? ==> a in old(script)
      ensures status == Complete ==> var s := old(Pending());
                HasFrame(s, cap) && payload == s[4..4 + BeAt(s)] && Pending() == s[4 + BeAt(s)..]
      ensures status == Complete <==> HasFrame(old(InReach()), cap)
      ensures status != Complete ==> Pending() == old(Pending())
      ensures status == Closed ==> old(Pending()) == []
      ensures status == Corrupt ==> !HasFrame(old(Pending()), cap) && old(Pending()) != []
      ensures status == Stopped ==> old(FromStop(script)) == [Idle(true)] + script
      ensures status == IoError ==> old(FromStop(script)) == [Failure] + script
      ensures status == Stopped || status == IoError ==>
        |old(InReach())| < 4 || (BeAt(old(InReach())) <= cap && |old(InReach())| < 4 + BeAt(old(InReach())))
      ensures status == Closed || status == Corrupt ==>
        old(FromStop(script)) == [] || (|old(InReach())| >= 4 && BeAt(old(InReach())) > cap)
      ensures status != Stopped && status != IoError ==> FromStop(script) == old(FromStop(script))
    {
      hide BeAt;
      payload := [];
      ghost var s, reach := Pending(), InReach();
      var fill := FillTo(LengthPrefixSize);
      match fill {
        case Failed => return IoError, payload;
        case Cancelled => return Stopped, payload;
        case PeerClosed =>
          assert Pending() == buf;
          return if buf == [] then Closed else Corrupt, payload;
        case Filled =>
      }
      SameLength(buf, s);
      SameLength(buf, reach);
      var length := BeAt(buf);
      if length > cap {
        return Corrupt, payload;
      }
      var total := LengthPrefixSize + length;
      fill := FillTo(total);
      match fill {
        case Failed => return IoError, payload;
        case Cancelled => return Stopped, payload;
        case PeerClosed =>
          assert Pending() == buf;
          return Corrupt, payload;
        case Filled =>
      }
      assert s[4..total] == buf[4..total] && s[total..] == buf[total..] + Remaining(script);
      payload, buf := buf[4..total], buf[total..];
      status := Complete;
    }

    /** Every message there is. What comes out depends on the bytes alone, not on how they arrived. */
    method ReadAll() returns (payloads: seq<seq<Byte>>, status: FrameStatus)
      requires Valid()
      modifies this
      ensures Valid() && status != Complete
      ensures var all, left := Parse(old(Pending()), cap), Parse(Pending(), cap);
              all == Messages(payloads + left.payloads, left.end)
      ensures status == Closed ==> Parse(old(Pending()), cap) == Messages(payloads, AtBoundary)
      ensures status == Corrupt ==>
        Parse(old(Pending()), cap).payloads == payloads && Parse(old(Pending()), cap).end != AtBoundary
      ensures status == Stopped ==> old(FromStop(script)) == [Idle(true)] + script
      ensures status == IoError ==> old(FromStop(script)) == [Failure] + script
    {
      hide BeAt;
      payloads := [];
      assert [] + Parse(Pending(), cap).payloads == Parse(Pending(), cap).payloads;
      while true
        invariant Valid() && FromStop(script) == old(FromStop(script))
        invariant Parse(old(Pending()), cap)
            == Messages(payloads + Parse(Pending(), cap).payloads, Parse(Pending(), cap).end)
        decreases |Pending()|
      {
        ghost var s := Pending();
        var payload;
        status, payload := ReadFrame();
        if status != Complete {
          assert payloads + [] == payloads;
          return;
        }
        OneMore(payloads, s, cap);
        payloads := payloads + [payload];
      }
    }
  }

  lemma SameLength(buf: seq<Byte>, s: seq<Byte>)
    requires |buf| >= 4 && buf <= s
    ensures BeAt(buf) == BeAt(s)
  {
    Prefix(buf, s, 4);
  }

  lemma {:induction false} Prefix(a: seq<Byte>, b: seq<Byte>, w: nat)
    requires w <= |a| && a <= b
    ensures ReadBe(a, w) == ReadBe(b, w)
  {
    if w > 0 {
      Prefix(a, b, w - 1);
    }
  }

  lemma ParseStep(s: seq<Byte>, cap: nat)
    requires HasFrame(s, cap)
    ensures Parse(s, cap) == Messages([s[4..4 + BeAt(s)]] + Parse(s[4 + BeAt(s)..], cap).payloads,
        Parse(s[4 + BeAt(s)..], cap).end)
  {
    hide BeAt;
  }

  lemma OneMore(payloads: seq<seq<Byte>>, s: seq<Byte>, cap: nat)
    requires HasFrame(s, cap)
    ensures var n := 4 + BeAt(s);
            && n <= |s| && n > 0
            && Parse(s, cap).end == Parse(s[n..], cap).end
            && payloads + Parse(s, cap).payloads == payloads + [s[4..n]] + Parse(s[n..], cap).payloads
  {
    hide BeAt, Parse;
    ParseStep(s, cap);
    Regroup(payloads, s[4..4 + BeAt(s)], Parse(s[4 + BeAt(s)..], cap).payloads);
  }

  lemma Regroup<T>(a: seq<T>, x: T, b: seq<T>)
    ensures a + ([x] + b) == a + [x] + b
  {
  }
}
