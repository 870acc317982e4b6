/**
 The streaming frame parser for the JBD battery protocol.

 A frame is  DD cmd status len payload[len] ck_hi ck_lo 77, where the 16-bit checksum is the
 two's complement of the byte sum over cmd, status, len and the payload.  `Parser` is the
 mutable framer; `Parse` says what one call computes and `Drain` what repeated calls yield.
 */
module JbdProtocol {

  type Byte = x: int | 0 <= x < 256

  const START: Byte := 0xDD
  const END: Byte := 0x77
  /** The longest frame: 4 header bytes, 255 payload bytes, 2 checksum bytes, the end byte. */
  const MAX_FRAME: nat := 262

  datatype Result = NeedMore | Complete | Error

  /** What one call of the parser does to its buffer. */
  datatype Outcome =
    | Pending(rest: seq<Byte>)
    | Frame(cmd: Byte, payload: seq<Byte>, rest: seq<Byte>)
    | Refused(rest: seq<Byte>)

  /** What a caller sees: a delivered frame, or the report of a frame with an error status. */
  datatype Event = Delivered(cmd: Byte, payload: seq<Byte>) | Failed

  datatype Trace = Trace(events: seq<Event>, rest: seq<Byte>)

  // ------------------------------------------------------------ frame layout

  function ByteSum(d: seq<Byte>): nat {
    if d == [] then 0 else ByteSum(d[..|d| - 1]) + d[|d| - 1]
  }

  function Checksum(d: seq<Byte>): nat {
    (0x10000 - ByteSum(d) % 0x10000) % 0x10000
  }

  function Word(hi: int, lo: int): int {
    hi * 256 + lo
  }

  /** The payload length that the header announces. */
  function Len(buf: seq<Byte>): nat
    requires |buf| >= 4
  {
    buf[3] as int
  }

  function Total(buf: seq<Byte>): nat
    requires |buf| >= 4
  {
    4 + Len(buf) + 2 + 1
  }

  /** The buffer starts with a start byte but is too short to judge the candidate frame. */
  predicate Undecided(buf: seq<Byte>) {
    |buf| > 0 && buf[0] == START && (|buf| < 4 || |buf| < Total(buf))
  }

  /** The buffer starts with a whole frame whose end byte and checksum are right. */
  predicate Sound(buf: seq<Byte>) {
    && |buf| >= 4 && |buf| >= Total(buf)
    && buf[0] == START
    && buf[Total(buf) - 1] == END
    && Word(buf[4 + Len(buf)], buf[5 + Len(buf)]) == Checksum(buf[1..4 + Len(buf)])
  }

  function EventOf(buf: seq<Byte>): Event
    requires Sound(buf)
  {
    if buf[2] == 0 then Delivered(buf[1], buf[4..4 + Len(buf)]) else Failed
  }

  // ------------------------------------------------------------ the frame layout in plain numbers

  lemma ByteSumOfOne(x: Byte)
    ensures ByteSum([]) == 0 && ByteSum([x]) == x
  {
    assert [x][..0] == [];
  }

  lemma {:induction false} ByteSumConcat(a: seq<Byte>, b: seq<Byte>)
    ensures ByteSum(a + b) == ByteSum(a) + ByteSum(b)
  {
    if b == [] {
      assert a + b == a;
    } else {
      assert (a + b)[..|a + b| - 1] == a + b[..|b| - 1];
      ByteSumConcat(a, b[..|b| - 1]);
    }
  }

  lemma ComplementIff(sum: nat, stored: nat)
    requires stored < 0x10000
    ensures stored == (0x10000 - sum % 0x10000) % 0x10000 <==> (sum + stored) % 0x10000 == 0
  {
  }

  /** What makes a candidate sound: long enough for its length byte, the start and the end byte in place,
      and the covered bytes and the stored checksum adding up to nought in 16 bits. */
  lemma SoundIff(buf: seq<Byte>)
    requires |buf| >= 4
    ensures var n := buf[3] as int;
            Sound(buf) <==>
            && |buf| >= 7 + n && buf[0] == 0xDD && buf[6 + n] == 0x77
            && (ByteSum(buf[1..4 + n]) + buf[4 + n] as int * 256 + buf[5 + n] as int) % 0x10000 == 0
  {
    hide ByteSum;
    var n := buf[3] as int;
    if |buf| >= 7 + n {
      ComplementIff(ByteSum(buf[1..4 + n]), buf[4 + n] as int * 256 + buf[5 + n] as int);
    }
  }

  /** A candidate is open until as many bytes have come as its length byte asks for. */
  lemma UndecidedIff(buf: seq<Byte>)
    ensures Undecided(buf) <==> |buf| > 0 && buf[0] == 0xDD && (|buf| < 4 || |buf| < 7 + buf[3] as int)
  {
  }

  /** The first position that is not plainly rubbish decides the outcome. */
  function Parse(buf: seq<Byte>): (o: Outcome)
    ensures |o.rest| <= |buf|
    ensures !o.Pending? ==> |o.rest| < |buf|
    decreases |buf|
  {
    if buf == [] || Undecided(buf) then Pending(buf)
    else if !Sound(buf) then Parse(buf[1..])
    else if buf[2] != 0 then Refused(buf[Total(buf)..])
    else Frame(buf[1], buf[4..4 + Len(buf)], buf[Total(buf)..])
  }

  lemma {:induction false} ParseCases(buf: seq<Byte>)
    ensures buf == [] || Undecided(buf) ==> Parse(buf) == Pending(buf)
    ensures buf != [] && !Undecided(buf) && !Sound(buf) ==> Parse(buf) == Parse(buf[1..])
    ensures Sound(buf) ==>
              Parse(buf) == if buf[2] != 0 then Refused(buf[Total(buf)..])
                            else Frame(buf[1], buf[4..4 + Len(buf)], buf[Total(buf)..])
  {
  }

  // ------------------------------------------------------------ the parser object

  class Parser {
    var buf: seq<Byte>
    var payload: seq<Byte>
    var lastCmd: Byte

    constructor ()
      ensures buf == [] && payload == [] && lastCmd == 0
    {
      buf, payload, lastCmd := [], [], 0;
    }

    method Reset()
      modifies this
      ensures buf == [] && payload == [] && lastCmd == 0
    {
      buf, payload, lastCmd := [], [], 0;
    }

    static method ComputeChecksum(d: seq<Byte>) returns (ck: nat)
      ensures ck == Checksum(d)
      ensures ck < 0x10000 && (ByteSum(d) + ck) % 0x10000 == 0
    {
      var sum: nat := 0;
      for i := 0 to |d|
        invariant sum == ByteSum(d[..i])
      {
        assert d[..i + 1][..i] == d[..i];
        sum := sum + d[i] as int;
      }
      assert d[..|d|] == d;
      ck := (0x10000 - sum % 0x10000) % 0x10000;
    }

    /** The new state and the answer are those of `Parse` on the old buffer. */
    twostate predicate Took(o: Outcome, r: Result)
      reads this
    {
      && buf == o.rest
      && match o {
           case Pending(_) => r == NeedMore && payload == old(payload) && lastCmd == old(lastCmd)
           case Refused(_) => r == Error && payload == old(payload) && lastCmd == old(lastCmd)
           case Frame(cmd, p, _) => r == Complete && payload == p && lastCmd == cmd
         }
    }

    /** Discards bytes up to the first start byte. */
    method SkipToStart()
      modifies this`buf
      ensures |buf| <= |old(buf)| && Parse(buf) == Parse(old(buf))
      ensures buf != [] ==> buf[0] == START
    {
      hide Parse, Checksum;
      var skip := 0;
      assert buf[0..] == buf;
      while skip < |buf| && buf[skip] != START
        invariant skip <= |buf| && unchanged(this)
        invariant Parse(buf[skip..]) == Parse(buf)
      {
        assert buf[skip..][1..] == buf[skip + 1..];
        ParseCases(buf[skip..]);
        skip := skip + 1;
      }
      if skip > 0 { buf := buf[skip..]; }
    }

    method TryParse() returns (r: Result)
      modifies this
      ensures Took(Parse(old(buf)), r)
      decreases |buf|
    {
      hide Parse, Checksum;
      SkipToStart();
      ParseCases(buf);

      if |buf| < 4 { return NeedMore; }
      var dataLen: nat := buf[3] as int;
      var total: nat := 4 + dataLen + 2 + 1;
      if |buf| < total { return NeedMore; }

      if buf[total - 1] != END {
        buf := buf[1..];
        r := TryParse();
        return;
      }
      var storedCk := Word(buf[4 + dataLen], buf[5 + dataLen]);
      var calcCk := ComputeChecksum(buf[1..1 + (3 + dataLen)]);
      if storedCk != calcCk {
        buf := buf[1..];
        r := TryParse();
        return;
      }
      if buf[2] != 0 {
        buf := buf[total..];
        return Error;
      }
      lastCmd := buf[1];
      payload := buf[4..4 + dataLen];
      buf := buf[total..];
      r := Complete;
    }

    method Feed(data: seq<Byte>) returns (r: Result)
      modifies this
      ensures Took(Parse(old(buf) + data), r)
    {
      buf := buf + data;
      label Joined:
      r := TryParse();
    }
  }

  // ------------------------------------------------------------ what one call decides

  /** `i` is the first position at which a candidate frame is sound or cannot be judged yet. */
  ghost predicate StopsAt(buf: seq<Byte>, i: nat) {
    && i <= |buf|
    && (forall p :: 0 <= p < i ==> !Sound(buf[p..]) && !Undecided(buf[p..]))
    && (i == |buf| || Sound(buf[i..]) || Undecided(buf[i..]))
  }

  /** One-byte backtracking never skips a true start: everything before the first sound or open
      candidate is dropped, and nothing else is. */
  lemma {:induction false} ParseStopsAtFirstCandidate(buf: seq<Byte>) returns (i: nat)
    ensures StopsAt(buf, i)
    ensures if i < |buf| && Sound(buf[i..])
            then Parse(buf) == (match EventOf(buf[i..]) {
              case Delivered(c, p) => Frame(c, p, buf[i + Total(buf[i..])..])
              case Failed => Refused(buf[i + Total(buf[i..])..]) })
            else Parse(buf) == Pending(buf[i..])
    decreases |buf|
  {
    hide Parse, Sound, Undecided, EventOf;
    assert buf[0..] == buf;
    ParseCases(buf);
    if buf == [] || Undecided(buf) || Sound(buf) {
      i := 0;
      if Sound(buf) { DeliveredOrRefused(buf); }
    } else {
      var j := ParseStopsAtFirstCandidate(buf[1..]);
      i := j + 1;
      forall p | 0 <= p < i ensures !Sound(buf[p..]) && !Undecided(buf[p..]) {
        if p > 0 { assert buf[p..] == buf[1..][p - 1..]; }
      }
      assert buf[i..] == buf[1..][j..];
      if i < |buf| && Sound(buf[i..]) {
        var n := SoundLength(buf[i..]);
        assert buf[i + n..] == buf[1..][j + n..];
      }
    }
  }

  lemma {:induction false} DeliveredOrRefused(buf: seq<Byte>)
    requires Sound(buf)
    ensures |buf| >= 4 && Total(buf) <= |buf| && !Undecided(buf)
    ensures Parse(buf) == match EventOf(buf) {
      case Delivered(c, p) => Frame(c, p, buf[Total(buf)..])
      case Failed => Refused(buf[Total(buf)..]) }
  {
  }

  /** Two stopping positions coincide, so the lemma above determines the outcome. */
  lemma StopIsUnique(buf: seq<Byte>, i: nat, j: nat)
    requires StopsAt(buf, i) && StopsAt(buf, j)
    ensures i == j
  {
  }

  // ------------------------------------------------------------ runs

  /** Feed nothing until the parser asks for more. */
  function Drain(buf: seq<Byte>): Trace
    decreases |buf|
  {
    match Parse(buf)
    case Pending(rest) => Trace([], rest)
    case Frame(c, p, rest) => var t := Drain(rest); Trace([Delivered(c, p)] + t.events, t.rest)
    case Refused(rest) => var t := Drain(rest); Trace([Failed] + t.events, t.rest)
  }

  lemma {:induction false} DrainUnfolds(buf: seq<Byte>)
    ensures Drain(buf) == match Parse(buf)
      case Pending(rest) => Trace([], rest)
      case Frame(c, p, rest) => Trace([Delivered(c, p)] + Drain(rest).events, Drain(rest).rest)
      case Refused(rest) => Trace([Failed] + Drain(rest).events, Drain(rest).rest)
  {
  }

  function Flatten(chunks: seq<seq<Byte>>): seq<Byte> {
    if chunks == [] then [] else chunks[0] + Flatten(chunks[1..])
  }

  /** Each chunk is fed and then drained. */
  function FeedAndDrain(buf: seq<Byte>, chunks: seq<seq<Byte>>): Trace
    decreases |chunks|
  {
    if chunks == [] then Trace([], buf)
    else
      var head := Drain(buf + chunks[0]);
      var tail := FeedAndDrain(head.rest, chunks[1..]);
      Trace(head.events + tail.events, tail.rest)
  }

  /** Each chunk is fed once, and only that one answer is looked at. */
  function FeedOnly(buf: seq<Byte>, chunks: seq<seq<Byte>>): Trace
    decreases |chunks|
  {
    if chunks == [] then Trace([], buf)
    else match Parse(buf + chunks[0])
      case Pending(rest) => FeedOnly(rest, chunks[1..])
      case Frame(c, p, rest) => var t := FeedOnly(rest, chunks[1..]); Trace([Delivered(c, p)] + t.events, t.rest)
      case Refused(rest) => var t := FeedOnly(rest, chunks[1..]); Trace([Failed] + t.events, t.rest)
  }

  /** A candidate that has been judged is judged the same way when more bytes follow. */
  lemma JudgementIsFinal(a: seq<Byte>, b: seq<Byte>)
    requires a != [] && !Undecided(a)
    ensures !Undecided(a + b)
    ensures Sound(a + b) == Sound(a)
  {
    if a[0] == START {
      var n := Total(a);
      assert (a + b)[3] == a[3];
      assert (a + b)[1..4 + Len(a)] == a[1..4 + Len(a)];
      assert (a + b)[n - 1] == a[n - 1];
    } else {
      assert (a + b)[0] == a[0];
    }
  }

  /** How the outcome on `a` extends to `a + b`. */
  lemma {:induction false} ParseExtends(a: seq<Byte>, b: seq<Byte>)
    ensures match Parse(a) {
      case Pending(rest) => Parse(a + b) == Parse(rest + b)
      case Frame(c, p, rest) => Parse(a + b) == Frame(c, p, rest + b)
      case Refused(rest) => Parse(a + b) == Refused(rest + b) }
    decreases |a|
  {
    hide Parse, Checksum;
    ParseCases(a);
    if a == [] || Undecided(a) {
    } else {
      ParseCases(a + b);
      JudgementIsFinal(a, b);
      if Sound(a) {
        assert Total(a + b) == Total(a);
        assert (a + b)[Total(a)..] == a[Total(a)..] + b;
        assert (a + b)[4..4 + Len(a)] == a[4..4 + Len(a)];
      } else {
        ParseExtends(a[1..], b);
        assert (a + b)[1..] == a[1..] + b;
      }
    }
  }

  lemma {:induction false} DrainExtends(a: seq<Byte>, b: seq<Byte>)
    ensures Drain(a + b).events == Drain(a).events + Drain(Drain(a).rest + b).events
    ensures Drain(a + b).rest == Drain(Drain(a).rest + b).rest
    decreases |a|
  {
    hide Parse;
    ParseExtends(a, b);
    match Parse(a) {
      case Pending(rest) =>
        assert Drain(a + b) == Drain(rest + b);
      case Frame(_, _, rest) => DrainExtends(rest, b);
      case Refused(rest) => DrainExtends(rest, b);
    }
  }

  /** Chunk invariance: draining after every chunk sees exactly what one big feed sees. */
  lemma {:induction false} ChunkInvariance(buf: seq<Byte>, chunks: seq<seq<Byte>>)
    requires chunks != [] || Drain(buf) == Trace([], buf)
    ensures FeedAndDrain(buf, chunks) == Drain(buf + Flatten(chunks))
    decreases |chunks|
  {
    hide Parse, Drain;
    if chunks == [] {
      assert buf + Flatten(chunks) == buf;
    } else {
      var head := Drain(buf + chunks[0]);
      DrainedStays(buf + chunks[0]);
      ChunkInvariance(head.rest, chunks[1..]);
      DrainExtends(buf + chunks[0], Flatten(chunks[1..]));
      assert buf + chunks[0] + Flatten(chunks[1..]) == buf + Flatten(chunks);
    }
  }

  lemma {:induction false} DrainedStays(buf: seq<Byte>)
    ensures Drain(Drain(buf).rest) == Trace([], Drain(buf).rest)
    decreases |buf|
  {
    match Parse(buf) {
      case Pending(rest) =>
        var i := ParseStopsAtFirstCandidate(buf);
        assert rest == [] || Undecided(rest);
      case Frame(_, _, rest) => DrainedStays(rest);
      case Refused(rest) => DrainedStays(rest);
    }
  }

  /** Any two ways of cutting one stream give a fresh parser the same events and leftover. */
  lemma {:induction false} SplitsAgree(chunks: seq<seq<Byte>>, others: seq<seq<Byte>>)
    requires Flatten(chunks) == Flatten(others)
    ensures FeedAndDrain([], chunks) == FeedAndDrain([], others) == Drain(Flatten(chunks))
  {
    ChunkInvariance([], chunks);
    ChunkInvariance([], others);
    assert [] + Flatten(chunks) == Flatten(chunks);
  }

  /** Without draining, the answers so far are a prefix of the full sequence, and draining the
      leftover yields the remainder: nothing is lost, only late. */
  lemma {:induction false} UndrainedIsPrefix(buf: seq<Byte>, chunks: seq<seq<Byte>>)
    ensures var t := FeedOnly(buf, chunks);
            && Drain(buf + Flatten(chunks)).events == t.events + Drain(t.rest).events
            && Drain(buf + Flatten(chunks)).rest == Drain(t.rest).rest
    decreases |chunks|
  {
    hide Parse, Drain;
    if chunks == [] {
      assert buf + Flatten(chunks) == buf;
    } else {
      var first, later := buf + chunks[0], Flatten(chunks[1..]);
      assert buf + Flatten(chunks) == first + later;
      ParseExtends(first, later);
      DrainUnfolds(first + later);
      var rest := Parse(first).rest;
      DrainUnfolds(rest + later);
      UndrainedIsPrefix(rest, chunks[1..]);
    }
  }

  // ------------------------------------------------------------ resynchronisation

  lemma {:induction false} DrainStep(buf: seq<Byte>)
    requires buf != [] && !Undecided(buf)
    ensures Sound(buf) ==>
              var later := Drain(buf[Total(buf)..]);
              Drain(buf) == Trace([EventOf(buf)] + later.events, later.rest)
    ensures !Sound(buf) ==> Drain(buf) == Drain(buf[1..])
  {
  }

  /** A whole frame at the head of the stream is the next event. */
  lemma {:induction false} FrameFirst(frame: seq<Byte>, tail: seq<Byte>)
    requires Sound(frame) && |frame| == Total(frame)
    ensures !Undecided(frame + tail)
    ensures Drain(frame + tail) == Trace([EventOf(frame)] + Drain(tail).events, Drain(tail).rest)
  {
    hide Parse, Checksum, Drain;
    JudgementIsFinal(frame, tail);
    assert (frame + tail)[Total(frame)..] == tail;
    assert (frame + tail)[4..4 + Len(frame)] == frame[4..4 + Len(frame)];
    DrainStep(frame + tail);
  }

  /** A frame that follows arbitrary garbage is delivered, and the bytes after it are parsed as if
      nothing had come before, as soon as MAX_FRAME bytes from its start have arrived and no sound
      frame that starts in the garbage reaches into it. */
  lemma {:induction false} Resynchronises(garbage: seq<Byte>, frame: seq<Byte>, tail: seq<Byte>)
      returns (before: seq<Event>)
    requires Sound(frame) && |frame| == Total(frame)
    requires |frame + tail| >= MAX_FRAME
    requires forall p :: 0 <= p < |garbage| && Sound((garbage + frame + tail)[p..]) ==>
               p + Total((garbage + frame + tail)[p..]) <= |garbage|
    ensures Drain(garbage + frame + tail).events == before + [EventOf(frame)] + Drain(tail).events
    ensures Drain(garbage + frame + tail).rest == Drain(tail).rest
    ensures (forall p :: 0 <= p < |garbage| ==> !Sound((garbage + frame + tail)[p..])) ==> before == []
    decreases |garbage|
  {
    hide Parse, Drain, Sound, EventOf;
    var stream := garbage + frame + tail;
    if garbage == [] {
      before := [];
      assert stream == frame + tail;
      FrameFirst(frame, tail);
    } else {
      assert stream[0..] == stream;
      var n := if Sound(stream) then Total(stream) else 1;
      assert stream[n..] == garbage[n..] + frame + tail;
      assert forall p :: 0 <= p < |garbage[n..]| ==> (garbage[n..] + frame + tail)[p..] == stream[p + n..];
      var later := Resynchronises(garbage[n..], frame, tail);
      before := if Sound(stream) then [EventOf(stream)] + later else later;
      DrainStep(stream);
    }
  }

  /** The positions, from `p` on, at which a drain accepts frames. */
  function AcceptedFrom(buf: seq<Byte>, p: nat): (ps: seq<nat>)
    requires p <= |buf|
    ensures FramesFrom(buf, ps, p)
    decreases |buf| - p
  {
    if p == |buf| || Undecided(buf[p..]) then []
    else if Sound(buf[p..]) then [p] + AcceptedFrom(buf, p + Total(buf[p..]))
    else AcceptedFrom(buf, p + 1)
  }

  function EventsAt(buf: seq<Byte>, ps: seq<nat>): (es: seq<Event>)
    requires FramesFrom(buf, ps, 0)
    ensures |es| == |ps|
  {
    seq(|ps|, i requires 0 <= i < |ps| => EventOf(buf[ps[i]..]))
  }

  lemma EventsAtFirst(buf: seq<Byte>, p: nat, ps: seq<nat>)
    requires p < |buf| && Sound(buf[p..]) && FramesFrom(buf, ps, 0)
    ensures FramesFrom(buf, [p] + ps, 0) && EventsAt(buf, [p] + ps) == [EventOf(buf[p..])] + EventsAt(buf, ps)
  {
    hide Sound, EventOf;
    var all := [p] + ps;
    assert forall i :: 0 <= i < |ps| ==> all[i + 1] == ps[i];
    assert all[0] == p;
  }

  lemma {:induction false} NothingAccepted(buf: seq<Byte>, p: nat)
    requires p <= |buf| && (p == |buf| || Undecided(buf[p..]))
    ensures AcceptedFrom(buf, p) == [] && EventsAt(buf, []) == []
  {
  }

  /** The events of a drain are those of the frames at the accepted positions. */
  lemma {:induction false} DrainAccepts(buf: seq<Byte>, p: nat)
    requires p <= |buf|
    ensures Drain(buf[p..]).events == EventsAt(buf, AcceptedFrom(buf, p))
    decreases |buf| - p
  {
    hide *;
    if p == |buf| || Undecided(buf[p..]) {
      NothingAccepted(buf, p);
      DrainWaits(buf[p..]);
    } else {
      DrainStep(buf[p..]);
      if Sound(buf[p..]) {
        var n := SoundLength(buf[p..]);
        assert buf[p..][n..] == buf[p + n..];
        AcceptFirst(buf, p);
        DrainAccepts(buf, p + n);
        AcceptedAreFrames(buf, p + n);
        EventsAtFirst(buf, p, AcceptedFrom(buf, p + n));
      } else {
        assert buf[p..][1..] == buf[p + 1..];
        AcceptLater(buf, p);
        DrainAccepts(buf, p + 1);
      }
    }
  }

  lemma {:induction false} AcceptedAreFrames(buf: seq<Byte>, p: nat)
    requires p <= |buf|
    ensures FramesFrom(buf, AcceptedFrom(buf, p), 0)
  {
  }

  lemma SoundLength(buf: seq<Byte>) returns (n: nat)
    requires Sound(buf)
    ensures |buf| >= 4 && n == Total(buf) <= |buf| && n >= 7
  {
    n := Total(buf);
  }

  lemma {:induction false} DrainWaits(buf: seq<Byte>)
    requires buf == [] || Undecided(buf)
    ensures Drain(buf) == Trace([], buf)
  {
  }

  ghost predicate FramesFrom(buf: seq<Byte>, ps: seq<nat>, p: nat) {
    forall i :: 0 <= i < |ps| ==> p <= ps[i] < |buf| && Sound(buf[ps[i]..])
  }

  /** The frame at position `q` is over by position `g`. */
  predicate EndsBy(buf: seq<Byte>, q: nat, g: nat)
    requires q < |buf| && Sound(buf[q..])
  {
    q + Total(buf[q..]) <= g
  }

  /** None of these frames begins before `g` and reaches into it. */
  ghost predicate NoneReaches(buf: seq<Byte>, ps: seq<nat>, g: nat)
    requires FramesFrom(buf, ps, 0)
  {
    forall i :: 0 <= i < |ps| && ps[i] < g ==> EndsBy(buf, ps[i], g)
  }

  /** One frame more, in front of later ones. */
  lemma FirstDecides(buf: seq<Byte>, p: nat, rest: seq<nat>, g: nat)
    requires p < |buf| && Sound(buf[p..]) && p <= g && FramesFrom(buf, rest, p + Total(buf[p..]))
    requires p < g && EndsBy(buf, p, g) ==> (g in rest <==> NoneReaches(buf, rest, g))
    ensures FramesFrom(buf, [p] + rest, 0) && (g in [p] + rest <==> NoneReaches(buf, [p] + rest, g))
  {
    hide Sound;
    var ps := [p] + rest;
    assert forall i :: 0 <= i < |rest| ==> ps[i + 1] == rest[i];
    assert ps[0] == p;
    if p == g {
      assert g in ps;
    } else if EndsBy(buf, p, g) {
      assert g in ps <==> g in rest;
      assert NoneReaches(buf, ps, g) <==> NoneReaches(buf, rest, g);
    } else {
      assert g !in rest;
    }
  }

  lemma AcceptFirst(buf: seq<Byte>, p: nat)
    requires p < |buf| && Sound(buf[p..])
    ensures p + Total(buf[p..]) <= |buf| && AcceptedFrom(buf, p) == [p] + AcceptedFrom(buf, p + Total(buf[p..]))
  {
  }

  lemma AcceptLater(buf: seq<Byte>, p: nat)
    requires p < |buf| && !Undecided(buf[p..]) && !Sound(buf[p..])
    ensures AcceptedFrom(buf, p) == AcceptedFrom(buf, p + 1)
  {
  }

  lemma LongEnough(buf: seq<Byte>)
    requires |buf| >= MAX_FRAME
    ensures !Undecided(buf)
  {
  }

  /** Exactly when a sound candidate is delivered, once the longest frame could have arrived from its
      start: no frame that is itself accepted before it reaches into it. */
  lemma {:induction false} AcceptedIff(buf: seq<Byte>, p: nat, g: nat)
    requires p <= g && g + MAX_FRAME <= |buf| && Sound(buf[g..])
    ensures g in AcceptedFrom(buf, p) <==> NoneReaches(buf, AcceptedFrom(buf, p), g)
    decreases g - p
  {
    hide Sound, AcceptedFrom, Undecided, NoneReaches;
    LongEnough(buf[p..]);
    if Sound(buf[p..]) {
      AcceptFirst(buf, p);
      var next := p + Total(buf[p..]);
      if p < g && next <= g { AcceptedIff(buf, next, g); }
      FirstDecides(buf, p, AcceptedFrom(buf, next), g);
    } else {
      AcceptLater(buf, p);
      AcceptedIff(buf, p + 1, g);
    }
  }

  // ------------------------------------------------------------ a parser that is fed and drained

  /** What the last answer tells the caller. */
  function Seen(r: Result, cmd: Byte, payload: seq<Byte>): Event
    requires !r.NeedMore?
  {
    if r.Complete? then Delivered(cmd, payload) else Failed
  }

  /** Feeds one chunk, then nothing, until the parser asks for more. */
  method FeedAndDrainOne(parser: Parser, chunk: seq<Byte>) returns (events: seq<Event>)
    modifies parser
    ensures Trace(events, parser.buf) == Drain(old(parser.buf) + chunk)
  {
    hide Parse;
    ghost var whole := parser.buf + chunk;
    events := [];
    DrainUnfolds(whole);
    var r := parser.Feed(chunk);
    while !r.NeedMore?
      invariant r.NeedMore? ==> Trace(events, parser.buf) == Drain(whole)
      invariant !r.NeedMore? ==>
                  && Drain(whole).events ==
                       events + [Seen(r, parser.lastCmd, parser.payload)] + Drain(parser.buf).events
                  && Drain(whole).rest == Drain(parser.buf).rest
      decreases |parser.buf|, !r.NeedMore?
    {
      events := events + [Seen(r, parser.lastCmd, parser.payload)];
      assert parser.buf + [] == parser.buf;
      DrainUnfolds(parser.buf);
      r := parser.Feed([]);
    }
  }

  /** A fresh or used parser object, fed chunk by chunk and drained after each, sees the stream as one:
      with `ChunkInvariance`, exactly what one big feed would have shown. */
  method FeedAll(parser: Parser, chunks: seq<seq<Byte>>) returns (events: seq<Event>)
    modifies parser
    ensures Trace(events, parser.buf) == FeedAndDrain(old(parser.buf), chunks)
    ensures chunks != [] ==> Trace(events, parser.buf) == Drain(old(parser.buf) + Flatten(chunks))
  {
    hide Drain;
    events := [];
    for i := 0 to |chunks|
      invariant FeedAndDrain(old(parser.buf), chunks).events == events + FeedAndDrain(parser.buf, chunks[i..]).events
      invariant FeedAndDrain(old(parser.buf), chunks).rest == FeedAndDrain(parser.buf, chunks[i..]).rest
    {
      assert chunks[i..][1..] == chunks[i + 1..];
      var more := FeedAndDrainOne(parser, chunks[i]);
      events := events + more;
    }
    if chunks != [] { ChunkInvariance(old(parser.buf), chunks); }
  }

  // ------------------------------------------------------------ known frames

  lemma SumOfThree(a: Byte, b: Byte, c: Byte)
    ensures ByteSum([a, b, c]) == a as int + b as int + c as int
  {
    ByteSumOfOne(a);
    ByteSumOfOne(b);
    ByteSumOfOne(c);
    ByteSumConcat([a], [b]);
    ByteSumConcat([a, b], [c]);
    assert [a] + [b] == [a, b] && [a, b] + [c] == [a, b, c];
  }

  /** The answer to command 5 without a payload, the same with an error status, and with the end byte
      spoilt. */
  lemma KnownFrames()
    ensures Drain([0xDD, 0x05, 0x00, 0x00, 0xFF, 0xFB, 0x77]) == Trace([Delivered(5, [])], [])
    ensures Drain([0xDD, 0x05, 0x80, 0x00, 0xFF, 0x7B, 0x77]) == Trace([Failed], [])
    ensures Drain([0xDD, 0x05, 0x00, 0x00, 0xFF, 0xFB, 0x76]) == Trace([], [])
  {
    hide Drain;
    KnownFrame([0xDD, 0x05, 0x00, 0x00, 0xFF, 0xFB, 0x77]);
    KnownFrame([0xDD, 0x05, 0x80, 0x00, 0xFF, 0x7B, 0x77]);
    SpoiltFrame([0xDD, 0x05, 0x00, 0x00, 0xFF, 0xFB, 0x76]);
  }

  lemma {:induction false} KnownFrame(f: seq<Byte>)
    requires |f| == 7 && f[0] == 0xDD && f[3] == 0 && f[6] == 0x77
    requires f[1] as int + f[2] as int + f[4] as int * 256 + f[5] as int == 0x10000
    ensures Drain(f) == Trace([if f[2] == 0 then Delivered(f[1], []) else Failed], [])
  {
    assert f[1..4] == [f[1], f[2], f[3]];
    SumOfThree(f[1], f[2], f[3]);
    hide Drain, Parse, Checksum;
    SoundIff(f);
    DrainStep(f);
    DrainNothing();
    assert f[7..] == [] && f[4..4] == [];
  }

  lemma {:induction false} SpoiltFrame(f: seq<Byte>)
    requires |f| == 7 && f[0] == 0xDD && f[3] == 0 && f[6] != 0x77
    requires forall i :: 1 <= i < 7 ==> f[i] != 0xDD
    ensures Drain(f) == Trace([], [])
  {
    hide Drain, Parse;
    DrainStep(f);
    GapIsSkipped(f[1..], []);
    DrainNothing();
    assert f[1..] + [] == f[1..];
  }

  // ------------------------------------------------------------ round trip and corruption

  /** The response frame a device sends for a successful command. */
  function Encode(cmd: Byte, payload: seq<Byte>): (f: seq<Byte>)
    requires |payload| <= 255
    ensures |f| == |payload| + 7
  {
    var body := [cmd, 0, |payload|] + payload;
    [START] + body + [Checksum(body) / 256, Checksum(body) % 256, END]
  }

  lemma EncodeIsSound(cmd: Byte, payload: seq<Byte>)
    requires |payload| <= 255
    ensures Sound(Encode(cmd, payload))
    ensures |Encode(cmd, payload)| == Total(Encode(cmd, payload))
    ensures EventOf(Encode(cmd, payload)) == Delivered(cmd, payload)
  {
    var f := Encode(cmd, payload);
    var body := [cmd, 0, |payload|] + payload;
    assert f[1..4 + |payload|] == body;
    assert f[4..4 + |payload|] == payload;
  }

  /** One message on the wire: bytes of line noise without a start byte, then a frame. */
  datatype Message = Message(gap: seq<Byte>, cmd: Byte, payload: seq<Byte>)

  ghost predicate Sendable(m: Message) {
    START !in m.gap && |m.payload| <= 255
  }

  ghost function Wire(ms: seq<Message>, end: seq<Byte>): seq<Byte>
    requires forall i :: 0 <= i < |ms| ==> Sendable(ms[i])
  {
    if ms == [] then end
    else assert Sendable(ms[0]); ms[0].gap + Encode(ms[0].cmd, ms[0].payload) + Wire(ms[1..], end)
  }

  ghost function Contents(ms: seq<Message>): seq<Event> {
    if ms == [] then [] else [Delivered(ms[0].cmd, ms[0].payload)] + Contents(ms[1..])
  }

  lemma DrainNothing()
    ensures Drain([]) == Trace([], [])
  {
  }

  lemma {:induction false} GapIsSkipped(gap: seq<Byte>, tail: seq<Byte>)
    requires START !in gap
    ensures Drain(gap + tail) == Drain(tail)
    decreases |gap|
  {
    if gap == [] {
      assert gap + tail == tail;
    } else {
      assert (gap + tail)[0] == gap[0];
      assert (gap + tail)[1..] == gap[1..] + tail;
      GapIsSkipped(gap[1..], tail);
    }
  }

  /** Every list of well-formed frames, with noise between them, drains to exactly its contents. */
  lemma {:induction false} WireRoundTrip(ms: seq<Message>, end: seq<Byte>)
    requires forall i :: 0 <= i < |ms| ==> Sendable(ms[i])
    requires START !in end
    ensures Drain(Wire(ms, end)) == Trace(Contents(ms), [])
    decreases |ms|
  {
    hide Parse, Sound, Drain, Encode, EventOf;
    if ms == [] {
      GapIsSkipped(end, []);
      DrainNothing();
      assert end + [] == end;
    } else {
      var m, later := ms[0], Wire(ms[1..], end);
      var f := Encode(m.cmd, m.payload);
      EncodeIsSound(m.cmd, m.payload);
      assert Wire(ms, end) == m.gap + (f + later);
      GapIsSkipped(m.gap, f + later);
      FrameFirst(f, later);
      WireRoundTrip(ms[1..], end);
    }
  }

  /** The condition in `Resynchronises` is needed: a whole frame that lies inside the payload of
      another one is never delivered. */
  lemma EmbeddedFrameIsSwallowed(cmd: Byte, inner: Byte, payload: seq<Byte>)
    requires |payload| <= 248
    ensures Drain(Encode(cmd, Encode(inner, payload))) == Trace([Delivered(cmd, Encode(inner, payload))], [])
  {
    var outer := Encode(cmd, Encode(inner, payload));
    var ms := [Message([], cmd, Encode(inner, payload))];
    assert Wire(ms[1..], []) == [];
    assert Wire(ms, []) == outer;
    assert Contents(ms[1..]) == [];
    WireRoundTrip(ms, []);
  }

  lemma {:induction false} SumOfUpdate(d: seq<Byte>, k: nat, v: Byte)
    requires k < |d|
    ensures ByteSum(d[k := v]) == ByteSum(d) - d[k] + v
    decreases |d|
  {
    var n := |d| - 1;
    if k == n {
      assert d[k := v][..n] == d[..n];
    } else {
      assert d[k := v][..n] == d[..n][k := v];
      SumOfUpdate(d[..n], k, v);
    }
  }

  /** Every change of one byte of a frame, other than its length byte, is detected: the candidate
      at that position is decided and refused. */
  lemma SingleByteCorruptionDetected(f: seq<Byte>, k: nat, v: Byte)
    requires Sound(f) && k < Total(f) && k != 3 && v != f[k]
    ensures !Sound(f[k := v]) && !Undecided(f[k := v])
    ensures Drain(f[k := v]) == Drain(f[k := v][1..])
  {
    var g := f[k := v];
    hide Parse, Drain, Checksum;
    CorruptionBreaksFrame(f, k, v);
    DrainStep(g);
  }

  /** Everything that has to add up to nought. */
  function FrameSum(buf: seq<Byte>): nat
    requires |buf| >= 4 && |buf| >= 7 + buf[3] as int
  {
    var n := buf[3] as int;
    ByteSum(buf[1..4 + n]) + buf[4 + n] as int * 256 + buf[5 + n] as int
  }

  lemma FrameSumOfUpdate(f: seq<Byte>, k: nat, v: Byte)
    requires |f| >= 4 && |f| >= 7 + f[3] as int && k != 3
    requires 1 <= k < 6 + f[3] as int
    ensures FrameSum(f[k := v]) - FrameSum(f) ==
              (if k == 4 + f[3] as int then 256 else 1) * (v as int - f[k] as int)
  {
    hide ByteSum;
    var g, n := f[k := v], f[3] as int;
    if k < 4 + n {
      assert g[1..4 + n] == f[1..4 + n][k - 1 := v];
      SumOfUpdate(f[1..4 + n], k - 1, v);
    } else {
      assert g[1..4 + n] == f[1..4 + n];
    }
  }

  lemma CorruptionBreaksFrame(f: seq<Byte>, k: nat, v: Byte)
    requires Sound(f) && k < Total(f) && k != 3 && v != f[k]
    ensures !Sound(f[k := v]) && !Undecided(f[k := v])
  {
    var g, n := f[k := v], f[3] as int;
    SoundIff(f);
    SoundIff(g);
    UndecidedIff(g);
    hide Sound, Undecided, ByteSum;
    if 1 <= k < 6 + n {
      FrameSumOfUpdate(f, k, v);
      assert FrameSum(f) % 0x10000 == 0;
      var sum, difference := FrameSum(f), FrameSum(g) - FrameSum(f);
      hide FrameSum;
      NotBothMultiples(sum, difference);
    }
  }

  lemma NotBothMultiples(a: int, d: int)
    requires a % 0x10000 == 0 && d != 0 && -0x10000 < d < 0x10000
    ensures (a + d) % 0x10000 != 0
  {
  }
}
