/** The frame loop over a container's log buffer: an 8-byte header whose last four bytes are the
    big-endian payload length, then the payload (Docker Engine API, container attach, "Stream
    format"). */
module DockerStream {
  import opened Texts

  type Byte = b: int | 0 <= b < 0x100

  datatype Frame = Frame(stream: seq<Byte>, payload: seq<Byte>) {
    predicate Valid() {
      |stream| == 4 && |payload| < 0x1_0000_0000
    }
  }

  function ReadUInt32BE(b: seq<Byte>): nat
    requires |b| == 4
  {
    ((b[0] as int * 0x100 + b[1] as int) * 0x100 + b[2] as int) * 0x100 + b[3] as int
  }

  function WriteUInt32BE(n: nat): (b: seq<Byte>)
    requires n < 0x1_0000_0000
    ensures |b| == 4
  {
    [n / 0x100 / 0x100 / 0x100, n / 0x100 / 0x100 % 0x100, n / 0x100 % 0x100, n % 0x100]
  }

  lemma LengthRoundTrip(b: seq<Byte>, n: nat)
    requires |b| == 4
    ensures ReadUInt32BE(b) < 0x1_0000_0000 && WriteUInt32BE(ReadUInt32BE(b)) == b
    ensures n < 0x1_0000_0000 ==> ReadUInt32BE(WriteUInt32BE(n)) == n
  {
    var m := ReadUInt32BE(b);
    var high: int := b[0] as int * 0x100 + b[1] as int;
    assert m / 0x100 == high * 0x100 + b[2] as int && m % 0x100 == b[3];
    assert m / 0x100 / 0x100 == high;
  }

  function Encode(f: Frame): seq<Byte>
    requires f.Valid()
  {
    f.stream + WriteUInt32BE(|f.payload|) + f.payload
  }

  ghost predicate AllValid(frames: seq<Frame>) {
    forall i | 0 <= i < |frames| :: frames[i].Valid()
  }

  ghost function EncodeAll(frames: seq<Frame>): seq<Byte>
    requires AllValid(frames)
  {
    if frames == [] then [] else Encode(frames[0]) + EncodeAll(frames[1..])
  }

  /** Whether the buffer starts with a complete frame, and how long that frame is. */
  predicate Complete(b: seq<Byte>) {
    |b| >= 8 && 8 + ReadUInt32BE(b[4..8]) <= |b|
  }

  function FrameLength(b: seq<Byte>): nat
    requires |b| >= 8
  {
    8 + ReadUInt32BE(b[4..8])
  }

  function FirstFrame(b: seq<Byte>): Frame
    requires Complete(b)
  {
    Frame(b[..4], b[8..FrameLength(b)])
  }

  /** The complete frames at the front of a buffer. */
  function Frames(b: seq<Byte>): seq<Frame> {
    if Complete(b) then [FirstFrame(b)] + Frames(b[FrameLength(b)..]) else []
  }

  function Decoded(frames: seq<Frame>, decode: seq<Byte> -> Text): Text {
    if frames == [] then [] else decode(frames[0].payload) + Decoded(frames[1..], decode)
  }

  lemma FirstFrameOfEncoded(f: Frame, rest: seq<Byte>)
    requires f.Valid()
    ensures var b := Encode(f) + rest;
      Complete(b) && FirstFrame(b) == f && FrameLength(b) == |Encode(f)| && b[FrameLength(b)..] == rest
  {
    var b := Encode(f) + rest;
    LengthRoundTrip([0, 0, 0, 0], |f.payload|);
    assert b[4..8] == WriteUInt32BE(|f.payload|);
    assert b[..4] == f.stream && b[8..|Encode(f)|] == f.payload;
  }

  lemma EncodeFirstFrame(b: seq<Byte>)
    requires Complete(b)
    ensures FirstFrame(b).Valid() && Encode(FirstFrame(b)) == b[..FrameLength(b)]
  {
    LengthRoundTrip(b[4..8], 0);
  }

  lemma FramesOfFirst(f: Frame, rest: seq<Byte>)
    requires f.Valid()
    ensures Frames(Encode(f) + rest) == [f] + Frames(rest)
  {
    FirstFrameOfEncoded(f, rest);
  }

  lemma FramesOfAll(frames: seq<Frame>, rest: seq<Byte>)
    requires AllValid(frames) && frames != []
    ensures Frames(EncodeAll(frames) + rest) == [frames[0]] + Frames(EncodeAll(frames[1..]) + rest)
  {
    var head, tail := Encode(frames[0]), EncodeAll(frames[1..]);
    assert head + tail + rest == head + (tail + rest);
    FramesOfFirst(frames[0], tail + rest);
  }

  /** Parsing inverts framing, whatever follows the frames. */
  lemma {:induction false} FramesOfEncoded(frames: seq<Frame>, rest: seq<Byte>)
    requires AllValid(frames)
    ensures Frames(EncodeAll(frames) + rest) == frames + Frames(rest)
  {
    if frames == [] {
      assert EncodeAll(frames) + rest == rest;
    } else {
      FramesOfAll(frames, rest);
      FramesOfEncoded(frames[1..], rest);
      assert [frames[0]] + (frames[1..] + Frames(rest)) == ([frames[0]] + frames[1..]) + Frames(rest);
      assert [frames[0]] + frames[1..] == frames;
    }
  }

  /** On any buffer the parsed frames are its longest prefix made of complete frames. */
  lemma {:induction false} FramesAreLongestPrefix(b: seq<Byte>)
    ensures AllValid(Frames(b)) && EncodeAll(Frames(b)) <= b
    ensures forall other | AllValid(other) && EncodeAll(other) <= b ::
      other <= Frames(b) && |EncodeAll(other)| <= |EncodeAll(Frames(b))|
  {
    ParsedIsPrefix(b);
    forall other | AllValid(other) && EncodeAll(other) <= b
      ensures other <= Frames(b) && |EncodeAll(other)| <= |EncodeAll(Frames(b))|
    {
      var rest := b[|EncodeAll(other)|..];
      assert EncodeAll(other) + rest == b;
      FramesOfEncoded(other, rest);
      ParsedIsPrefix(rest);
      EncodeAllAppend(other, Frames(rest));
    }
  }

  lemma {:induction false} ParsedIsPrefix(b: seq<Byte>)
    ensures AllValid(Frames(b)) && EncodeAll(Frames(b)) <= b
  {
    if Complete(b) {
      var n := FrameLength(b);
      EncodeFirstFrame(b);
      ParsedIsPrefix(b[n..]);
      assert b == b[..n] + b[n..];
      assert Frames(b)[1..] == Frames(b[n..]);
    }
  }

  lemma {:induction false} EncodeAllAppend(p: seq<Frame>, q: seq<Frame>)
    requires AllValid(p) && AllValid(q)
    ensures AllValid(p + q) && EncodeAll(p + q) == EncodeAll(p) + EncodeAll(q)
  {
    if p == [] {
      assert p + q == q;
    } else {
      assert (p + q)[1..] == p[1..] + q;
      EncodeAllAppend(p[1..], q);
    }
  }

  /** The complete frame at position `i` of a buffer. */
  lemma FramesAt(b: seq<Byte>, i: nat, length: nat)
    requires i + 8 + length <= |b| && ReadUInt32BE(b[i + 4..i + 8]) == length
    ensures Frames(b[i..]) == [Frame(b[i..i + 4], b[i + 8..i + 8 + length])] + Frames(b[i + 8 + length..])
  {
    var rest := b[i..];
    assert rest[4..8] == b[i + 4..i + 8];
    assert rest[..4] == b[i..i + 4] && rest[8..8 + length] == b[i + 8..i + 8 + length];
    assert rest[8 + length..] == b[i + 8 + length..];
  }

  lemma NoFrameAt(b: seq<Byte>, i: nat)
    requires i <= |b|
    requires i + 8 <= |b| ==> i + 8 + ReadUInt32BE(b[i + 4..i + 8]) > |b|
    ensures Frames(b[i..]) == []
  {
    if i + 8 <= |b| { assert b[i..][4..8] == b[i + 4..i + 8]; }
  }

  lemma Reassociate(p: Text, q: Text, r: Text)
    ensures p + (q + r) == p + q + r
  {
  }

  lemma DecodedAt(b: seq<Byte>, i: nat, length: nat, decode: seq<Byte> -> Text)
    requires i + 8 + length <= |b| && ReadUInt32BE(b[i + 4..i + 8]) == length
    ensures Decoded(Frames(b[i..]), decode) ==
      decode(b[i + 8..i + 8 + length]) + Decoded(Frames(b[i + 8 + length..]), decode)
  {
    FramesAt(b, i, length);
  }

  /** The loop of `execute`: it decodes the payloads of exactly the complete leading frames. */
  method Demultiplex(logs: array<Byte>, decode: seq<Byte> -> Text) returns (result: Text)
    ensures result == Decoded(Frames(logs[..]), decode)
    ensures Demultiplexed(logs[..], decode, result)
  {
    result := [];
    var i := 0;
    ghost var b := logs[..];
    assert b[0..] == b;
    while i < logs.Length
      invariant 0 <= i <= logs.Length
      invariant result + Decoded(Frames(b[i..]), decode) == Decoded(Frames(b), decode)
    {
      if i + 8 > logs.Length { break; }
      var length := ReadUInt32BE(logs[i + 4..i + 8]);
      assert b[i + 4..i + 8] == logs[i + 4..i + 8];
      if i + 8 + length > logs.Length { break; }
      var payload := logs[i + 8..i + 8 + length];
      assert payload == b[i + 8..i + 8 + length];
      DecodedAt(b, i, length, decode);
      Reassociate(result, decode(payload), Decoded(Frames(b[i + 8 + length..]), decode));
      result := result + decode(payload);
      i := i + 8 + length;
    }
    NoFrameAt(b, i);
    DecodedIsDemultiplexed(b, decode);
  }

  // ---- What comes out, and in which order ----

  /** The big-endian length in the header of a frame that starts at `o`. */
  function LengthAt(b: seq<Byte>, o: nat): nat
    requires o + 8 <= |b|
  {
    b[o + 4] as int * 16777216 + b[o + 5] as int * 65536 + b[o + 6] as int * 256 + b[o + 7] as int
  }

  ghost predicate CompleteAt(b: seq<Byte>, o: nat) {
    o + 8 <= |b| && o + 8 + LengthAt(b, o) <= |b|
  }

  /** From `o[0]` on, frames lie end to end up to the first that is not complete. */
  ghost predicate Offsets(b: seq<Byte>, o: seq<nat>) {
    && o != [] && !CompleteAt(b, o[|o| - 1])
    && forall i {:trigger o[i]} | 0 <= i < |o| - 1 :: CompleteAt(b, o[i]) && o[i + 1] == o[i] + 8 + LengthAt(b, o[i])
  }

  /** `text` falls at the cuts `c` into these pieces, in this order. */
  ghost predicate Falls(text: Text, pieces: seq<Text>, c: seq<nat>) {
    && |c| == |pieces| + 1 && c[0] == 0 && c[|pieces|] == |text|
    && forall i {:trigger pieces[i]} | 0 <= i < |pieces| :: Stands(text, c[i], c[i + 1], pieces[i])
  }

  ghost predicate Stands(text: Text, start: nat, end: nat, piece: Text) {
    start <= end <= |text| && text[start..end] == piece
  }

  /** The result is the decoded payloads of the complete leading frames, one after the other. */
  ghost predicate InOrder(b: seq<Byte>, decode: seq<Byte> -> Text, result: Text, o: seq<nat>, pieces: seq<Text>, c: seq<nat>) {
    Offsets(b, o) && Falls(result, pieces, c) && Carried(b, decode, o, pieces)
  }

  /** Piece i is the decoded payload of the frame at `o[i]`. */
  ghost predicate Carried(b: seq<Byte>, decode: seq<Byte> -> Text, o: seq<nat>, pieces: seq<Text>) {
    && |o| == |pieces| + 1
    && forall i {:trigger pieces[i]} | 0 <= i < |pieces| :: Carries(b, decode, o[i], o[i + 1], pieces[i])
  }

  ghost predicate Carries(b: seq<Byte>, decode: seq<Byte> -> Text, start: nat, end: nat, piece: Text) {
    start + 8 <= end <= |b| && piece == decode(b[start + 8..end])
  }

  /** From the beginning of the buffer. */
  ghost predicate Demultiplexed(b: seq<Byte>, decode: seq<Byte> -> Text, result: Text) {
    exists o, pieces, c :: InOrder(b, decode, result, o, pieces, c) && o[0] == 0
  }

  lemma DecodedIsDemultiplexed(b: seq<Byte>, decode: seq<Byte> -> Text)
    ensures Demultiplexed(b, decode, Decoded(Frames(b), decode))
  {
    assert b[0..] == b;
    var o, pieces, c := DecodedInOrder(b, 0, decode);
  }

  lemma PieceAdded(head: Text, rest: Text, pieces: seq<Text>, c': seq<nat>) returns (c: seq<nat>)
    requires Falls(rest, pieces, c')
    ensures Falls(head + rest, [head] + pieces, c)
  {
    c := [0] + seq(|c'|, i requires 0 <= i < |c'| => c'[i] + |head|);
    var all, text := [head] + pieces, head + rest;
    forall i {:trigger all[i]} | 0 <= i < |all| ensures Stands(text, c[i], c[i + 1], all[i]) {
      if i > 0 {
        assert all[i] == pieces[i - 1];
        assert c[i] == c'[i - 1] + |head| && c[i + 1] == c'[i] + |head|;
        assert text[c[i]..c[i + 1]] == rest[c'[i - 1]..c'[i]];
      } else {
        assert c[1] == |head| && text[..|head|] == head;
      }
    }
    assert c[|all|] == c'[|pieces|] + |head|;
  }

  lemma LengthIsBigEndian(b: seq<Byte>, o: nat)
    requires o + 8 <= |b|
    ensures LengthAt(b, o) == ReadUInt32BE(b[o + 4..o + 8])
  {
  }

  lemma OffsetAdded(b: seq<Byte>, start: nat, o: seq<nat>)
    requires Offsets(b, o) && CompleteAt(b, start) && o[0] == start + 8 + LengthAt(b, start)
    ensures Offsets(b, [start] + o)
  {
    var all := [start] + o;
    forall i {:trigger all[i]} | 0 <= i < |all| - 1
      ensures CompleteAt(b, all[i]) && all[i + 1] == all[i] + 8 + LengthAt(b, all[i])
    {
      if i > 0 { assert all[i] == o[i - 1] && all[i + 1] == o[i]; }
    }
  }

  lemma {:induction false} DecodedInOrder(b: seq<Byte>, start: nat, decode: seq<Byte> -> Text)
    returns (o: seq<nat>, pieces: seq<Text>, c: seq<nat>)
    requires start <= |b|
    ensures InOrder(b, decode, Decoded(Frames(b[start..]), decode), o, pieces, c) && o[0] == start
    decreases |b| - start
  {
    if CompleteAt(b, start) {
      var next := start + 8 + LengthAt(b, start);
      var o', pieces', c' := DecodedInOrder(b, next, decode);
      o, pieces := [start] + o', [decode(b[start + 8..next])] + pieces';
      c := FrameAdded(b, start, next, decode, o', pieces', c');
    } else {
      NothingMore(b, start, decode);
      o, pieces, c := [start], [], [0];
    }
  }

  lemma NothingMore(b: seq<Byte>, start: nat, decode: seq<Byte> -> Text)
    requires start <= |b| && !CompleteAt(b, start)
    ensures InOrder(b, decode, Decoded(Frames(b[start..]), decode), [start], [], [0])
  {
    if start + 8 <= |b| { LengthIsBigEndian(b, start); }
    NoFrameAt(b, start);
  }

  lemma DecodedFrom(b: seq<Byte>, start: nat, decode: seq<Byte> -> Text)
    requires CompleteAt(b, start)
    ensures var next := start + 8 + LengthAt(b, start);
      Decoded(Frames(b[start..]), decode) == decode(b[start + 8..next]) + Decoded(Frames(b[next..]), decode)
  {
    LengthIsBigEndian(b, start);
    DecodedAt(b, start, LengthAt(b, start), decode);
  }

  lemma FrameAdded(b: seq<Byte>, start: nat, next: nat, decode: seq<Byte> -> Text, o: seq<nat>, pieces: seq<Text>, c': seq<nat>)
    returns (c: seq<nat>)
    requires CompleteAt(b, start) && next == start + 8 + LengthAt(b, start)
    requires InOrder(b, decode, Decoded(Frames(b[next..]), decode), o, pieces, c') && o[0] == next
    ensures InOrder(b, decode, Decoded(Frames(b[start..]), decode), [start] + o, [decode(b[start + 8..next])] + pieces, c)
  {
    var head, rest := decode(b[start + 8..next]), Decoded(Frames(b[next..]), decode);
    c := PieceAdded(head, rest, pieces, c');
    OffsetAdded(b, start, o);
    PayloadAdded(b, start, decode, o, pieces);
    DecodedFrom(b, start, decode);
  }

  lemma PayloadAdded(b: seq<Byte>, start: nat, decode: seq<Byte> -> Text, o: seq<nat>, pieces: seq<Text>)
    requires Carried(b, decode, o, pieces) && start + 8 <= o[0] <= |b|
    ensures Carried(b, decode, [start] + o, [decode(b[start + 8..o[0]])] + pieces)
  {
    var all, from := [decode(b[start + 8..o[0]])] + pieces, [start] + o;
    forall i {:trigger all[i]} | 0 <= i < |all| ensures Carries(b, decode, from[i], from[i + 1], all[i]) {
      if i > 0 { assert all[i] == pieces[i - 1] && from[i] == o[i - 1] && from[i + 1] == o[i]; }
    }
  }

  /** Demultiplexing the concatenated frames gives back the payloads, decoded, in order: the text falls
      into one piece per frame, and piece i is what frame i carries. */
  lemma FramingRoundTrip(frames: seq<Frame>, decode: seq<Byte> -> Text) returns (c: seq<nat>)
    requires AllValid(frames)
    ensures Falls(Decoded(Frames(EncodeAll(frames)), decode), seq(|frames|, i requires 0 <= i < |frames| => decode(frames[i].payload)), c)
  {
    FramesOfEncoded(frames, []);
    assert EncodeAll(frames) + [] == EncodeAll(frames);
    assert frames + Frames([]) == frames;
    c := DecodedFalls(frames, decode);
  }

  lemma {:induction false} DecodedFalls(frames: seq<Frame>, decode: seq<Byte> -> Text) returns (c: seq<nat>)
    ensures Falls(Decoded(frames, decode), seq(|frames|, i requires 0 <= i < |frames| => decode(frames[i].payload)), c)
  {
    var pieces := seq(|frames|, i requires 0 <= i < |frames| => decode(frames[i].payload));
    if frames == [] {
      c := [0];
    } else {
      var more := frames[1..];
      var c' := DecodedFalls(more, decode);
      var head := decode(frames[0].payload);
      c := PieceAdded(head, Decoded(more, decode), seq(|more|, i requires 0 <= i < |more| => decode(more[i].payload)), c');
      assert pieces == [head] + seq(|more|, i requires 0 <= i < |more| => decode(more[i].payload));
    }
  }
}
