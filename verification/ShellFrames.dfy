/**
 * Shell-v2 results: a bounded parser of framed output.  A frame is a kind byte, a little-endian 32-bit
 * length and that many bytes; kind 1 is standard output, kind 2 standard error, kind 3 the exit status.
 */
module ShellFrames {
  import opened Basics

  const LIMIT := 1024 * 1024

  datatype Frame = Out(data: Bytes) | Err(data: Bytes)

  /** Which check or read ended the parse. */
  datatype Failure = EndOfStream | TooLarge | BadExitFrame | UnexpectedKind

  datatype Result = Result(stdout: Bytes, stderr: Bytes, exitCode: byte)

  datatype Parsed = Ok(result: Result) | Failed(why: Failure)

  /** The four length bytes as a signed 32-bit number, lowest byte first. */
  function Length(b: Bytes): int
    requires |b| == 4
  {
    var n := b[0] as int + 0x100 * b[1] as int + 0x1_0000 * b[2] as int + 0x100_0000 * b[3] as int;
    if n < 0x8000_0000 then n else n - 0x1_0000_0000
  }

  function LengthBytes(n: nat): (b: Bytes)
    requires n < 0x8000_0000
    ensures |b| == 4 && Length(b) == n
  {
    var q := n / 0x100;
    var r := q / 0x100;
    var b: Bytes := [(n % 0x100) as byte, (q % 0x100) as byte, (r % 0x100) as byte, (r / 0x100) as byte];
    b
  }

  function Encode(f: Frame): Bytes
    requires |f.data| < 0x8000_0000
  {
    [if f.Out? then 1 else 2] + LengthBytes(|f.data|) + f.data
  }

  function ExitFrame(code: byte): Bytes
  {
    [3] + LengthBytes(1) + [code]
  }

  /** All the bytes the frames carry for one stream. */
  function Carried(frames: seq<Frame>, out: bool): Bytes
  {
    if frames == [] then []
    else (if frames[0].Out? == out then frames[0].data else []) + Carried(frames[1..], out)
  }

  function Total(frames: seq<Frame>): nat
  {
    if frames == [] then 0 else |frames[0].data| + Total(frames[1..])
  }

  function EncodeAll(frames: seq<Frame>, code: byte): Bytes
    requires Total(frames) < 0x8000_0000
  {
    if frames == [] then ExitFrame(code) else Encode(frames[0]) + EncodeAll(frames[1..], code)
  }

  /** What the parser makes of the rest of a stream, with what it has gathered. */
  function Parse(input: Bytes, stdout: Bytes, stderr: Bytes): (parsed: Parsed)
    ensures |stdout| + |stderr| <= LIMIT && parsed.Ok? ==> |parsed.result.stdout| + |parsed.result.stderr| < LIMIT
  {
    if |input| < 5 then Failed(EndOfStream)
    else
      var kind, length, rest := input[0], Length(input[1..5]), input[5..];
      if length < 0 || length > LIMIT || |stdout| + |stderr| + length > LIMIT then Failed(TooLarge)
      else if kind == 3 then
        if length != 1 then Failed(BadExitFrame)
        else if rest == [] then Failed(EndOfStream)
        else Ok(Result(stdout, stderr, rest[0]))
      else if kind != 1 && kind != 2 then Failed(UnexpectedKind)
      else if |rest| < length then Failed(EndOfStream)
      else if kind == 1 then Parse(rest[length..], stdout + rest[..length], stderr)
      else Parse(rest[length..], stdout, stderr + rest[..length])
  }

  /** The source the parser reads from, a byte or a block at a time. */
  class Stream {
    const bytes: Bytes
    var position: nat

    constructor (bytes: Bytes)
      ensures this.bytes == bytes && position == 0
    {
      this.bytes, this.position := bytes, 0;
    }

    ghost predicate Valid()
      reads this
    {
      position <= |bytes|
    }

    function Rest(): Bytes
      requires Valid()
      reads this
    {
      bytes[position..]
    }

    /** Exactly n bytes, or nothing at the end of the stream. */
    method ReadFully(n: nat) returns (block: Option<Bytes>)
      requires Valid()
      modifies this
      ensures Valid()
      ensures block.Some? <==> n <= |old(Rest())|
      ensures block.Some? ==> block.value == old(Rest())[..n] && Rest() == old(Rest())[n..]
      ensures |Rest()| <= |old(Rest())|
    {
      if n > |bytes| - position {
        position := |bytes|;
        return None;
      }
      block := Some(bytes[position..position + n]);
      position := position + n;
    }
  }

  /** Reads frames until the exit frame; the two buffers together never exceed the limit. */
  method Read(source: Stream) returns (parsed: Parsed)
    requires source.Valid()
    modifies source
    ensures source.Valid() && parsed == Parse(old(source.Rest()), [], [])
  {
    var stdout: Bytes, stderr: Bytes := [], [];
    while true
      invariant source.Valid() && |stdout| + |stderr| <= LIMIT
      invariant Parse(source.Rest(), stdout, stderr) == Parse(old(source.Rest()), [], [])
      decreases |source.Rest()|
    {
      ghost var input := source.Rest();
      var kind := source.ReadFully(1);
      if kind.None? { return Failed(EndOfStream); }
      var header := source.ReadFully(4);
      if header.None? { return Failed(EndOfStream); }
      assert kind.value[0] == input[0] && header.value == input[1..5] && source.Rest() == input[5..];
      var length := Length(header.value);
      if length < 0 || length > LIMIT || |stdout| + |stderr| + length > LIMIT { return Failed(TooLarge); }
      if kind.value[0] == 3 {
        if length != 1 { return Failed(BadExitFrame); }
        var status := source.ReadFully(1);
        if status.None? { return Failed(EndOfStream); }
        return Ok(Result(stdout, stderr, status.value[0]));
      }
      if kind.value[0] != 1 && kind.value[0] != 2 { return Failed(UnexpectedKind); }
      var block := source.ReadFully(length);
      if block.None? { return Failed(EndOfStream); }
      if kind.value[0] == 1 { stdout := stdout + block.value; } else { stderr := stderr + block.value; }
    }
  }

  lemma FrameParts(f: Frame, tail: Bytes)
    requires |f.data| < 0x8000_0000
    ensures var input, n := Encode(f) + tail, |f.data|;
            && |input| >= 5 + n && input[0] == (if f.Out? then 1 else 2) && Length(input[1..5]) == n
            && input[5..][..n] == f.data && input[5..][n..] == tail
  {
    hide Length, LengthBytes;
    var input := Encode(f) + tail;
    assert input[1..5] == LengthBytes(|f.data|);
    assert input[5..] == f.data + tail;
  }

  /** Parsing one encoded frame gathers its bytes and goes on, while the limit allows them. */
  lemma ParseFrame(f: Frame, tail: Bytes, stdout: Bytes, stderr: Bytes)
    requires |f.data| < 0x8000_0000
    ensures Parse(Encode(f) + tail, stdout, stderr)
         == if |stdout| + |stderr| + |f.data| > LIMIT then Failed(TooLarge)
            else if f.Out? then Parse(tail, stdout + f.data, stderr) else Parse(tail, stdout, stderr + f.data)
  {
    FrameParts(f, tail);
    hide Length, LengthBytes, Encode;
  }

  lemma ParseExit(code: byte, tail: Bytes, stdout: Bytes, stderr: Bytes)
    ensures Parse(ExitFrame(code) + tail, stdout, stderr)
         == if |stdout| + |stderr| + 1 > LIMIT then Failed(TooLarge) else Ok(Result(stdout, stderr, code))
  {
    hide Length, LengthBytes;
    var input := ExitFrame(code) + tail;
    assert input[1..5] == LengthBytes(1);
    assert input[5..] == [code] + tail;
  }

  /**
   * Round trip, with the exact limit: the frames and an exit status parse back to the two concatenations
   * and the status if, and only if, the output is shorter than 1 MiB, because the exit byte counts.
   */
  lemma {:induction false} RoundTripFrom(frames: seq<Frame>, code: byte, tail: Bytes, stdout: Bytes, stderr: Bytes)
    requires Total(frames) < 0x8000_0000
    ensures Parse(EncodeAll(frames, code) + tail, stdout, stderr)
         == if |stdout| + |stderr| + Total(frames) < LIMIT
            then Ok(Result(stdout + Carried(frames, true), stderr + Carried(frames, false), code))
            else Failed(TooLarge)
  {
    hide Parse, Encode, LengthBytes, Length;
    if frames == [] {
      ParseExit(code, tail, stdout, stderr);
      assert stdout + [] == stdout && stderr + [] == stderr;
    } else {
      var f, rest := frames[0], EncodeAll(frames[1..], code);
      assert EncodeAll(frames, code) + tail == Encode(f) + (rest + tail);
      ParseFrame(f, rest + tail, stdout, stderr);
      var out, err := if f.Out? then stdout + f.data else stdout, if f.Out? then stderr else stderr + f.data;
      RoundTripFrom(frames[1..], code, tail, out, err);
      CarriedFirst(frames, stdout, stderr);
      hide Carried;
    }
  }

  lemma CarriedFirst(frames: seq<Frame>, stdout: Bytes, stderr: Bytes)
    requires frames != []
    ensures stdout + Carried(frames, true)
              == (if frames[0].Out? then stdout + frames[0].data else stdout) + Carried(frames[1..], true)
    ensures stderr + Carried(frames, false)
              == (if frames[0].Out? then stderr else stderr + frames[0].data) + Carried(frames[1..], false)
  {
    Regrouped(stdout, if frames[0].Out? then frames[0].data else [], Carried(frames[1..], true));
    Regrouped(stderr, if frames[0].Out? then [] else frames[0].data, Carried(frames[1..], false));
    assert stdout + [] == stdout && stderr + [] == stderr;
  }

  lemma Regrouped(a: Bytes, b: Bytes, c: Bytes)
    ensures a + (b + c) == (a + b) + c
  {
  }

  lemma RoundTrip(frames: seq<Frame>, code: byte)
    requires Total(frames) < 0x8000_0000
    ensures Parse(EncodeAll(frames, code), [], [])
         == if Total(frames) < 0x10_0000 then Ok(Result(Carried(frames, true), Carried(frames, false), code))
            else Failed(TooLarge)
  {
    RoundTripFrom(frames, code, [], [], []);
    assert EncodeAll(frames, code) + [] == EncodeAll(frames, code);
    assert [] + Carried(frames, true) == Carried(frames, true) && [] + Carried(frames, false) == Carried(frames, false);
  }

  /** A parse that succeeds does not depend on what follows the bytes it used: no proper prefix succeeds. */
  lemma {:induction false} PrefixRejectedFrom(frames: seq<Frame>, code: byte, cut: nat, stdout: Bytes, stderr: Bytes)
    requires Total(frames) < 0x8000_0000 && cut < |EncodeAll(frames, code)|
    ensures Parse(EncodeAll(frames, code)[..cut], stdout, stderr).Failed?
  {
    var all := EncodeAll(frames, code);
    var input := all[..cut];
    if cut >= 5 {
      if frames == [] {
        assert input[1..5] == LengthBytes(1) && |input| == 5;
      } else {
        var f, rest := frames[0], EncodeAll(frames[1..], code);
        var head := Encode(f);
        assert all == head + rest && input[1..5] == LengthBytes(|f.data|);
        if cut >= |head| {
          assert input == head + rest[..cut - |head|];
          ParseFrame(f, rest[..cut - |head|], stdout, stderr);
          var out, err := if f.Out? then stdout + f.data else stdout, if f.Out? then stderr else stderr + f.data;
          PrefixRejectedFrom(frames[1..], code, cut - |head|, out, err);
        }
      }
    }
  }

  lemma {:induction false} AcceptedFrames(input: Bytes, stdout: Bytes, stderr: Bytes)
          returns (frames: seq<Frame>, code: byte)
    requires Parse(input, stdout, stderr).Ok?
    ensures |stdout| + |stderr| + Total(frames) < LIMIT && EncodeAll(frames, code) <= input
    decreases |input|
  {
    var kind, length, rest := input[0], Length(input[1..5]), input[5..];
    FirstFrame(input);
    hide Length, LengthBytes, ExitFrame, Encode;
    if kind == 3 {
      frames, code := [], rest[0];
    } else {
      var f := if kind == 1 then Out(rest[..length]) else Err(rest[..length]);
      ParseFrame(f, rest[length..], stdout, stderr);
      var later;
      later, code := AcceptedFrames(rest[length..], if f.Out? then stdout + f.data else stdout, if f.Out? then stderr
          else stderr + f.data);
      hide Parse;
      frames := [f] + later;
      assert frames[1..] == later;
      assert EncodeAll(frames, code) == Encode(f) + EncodeAll(later, code);
    }
  }

  /** Every stream the parser accepts is, up to where it stops, the encoding of some frames and an exit status. */
  lemma AcceptedIsEncoded(input: Bytes) returns (frames: seq<Frame>, code: byte)
    requires Parse(input, [], []).Ok?
    ensures Total(frames) < 0x10_0000 && EncodeAll(frames, code) <= input
    ensures Parse(input, [], []) == Ok(Result(Carried(frames, true), Carried(frames, false), code))
  {
    frames, code := AcceptedFrames(input, [], []);
    var tail := input[|EncodeAll(frames, code)|..];
    assert input == EncodeAll(frames, code) + tail;
    RoundTripFrom(frames, code, tail, [], []);
    hide Parse, EncodeAll;
    assert [] + Carried(frames, true) == Carried(frames, true) && [] + Carried(frames, false) == Carried(frames, false);
  }

  /** A complete frame at the head of the input is the encoding of what it holds. */
  lemma FirstFrame(input: Bytes)
    requires |input| >= 5 && 0 <= Length(input[1..5]) <= |input[5..]|
    ensures var kind, n, rest := input[0], Length(input[1..5]), input[5..];
            && n < 0x8000_0000
            && (kind == 1 ==> input == Encode(Out(rest[..n])) + rest[n..])
            && (kind == 2 ==> input == Encode(Err(rest[..n])) + rest[n..])
            && (kind == 3 && n == 1 ==> ExitFrame(rest[0]) <= input)
  {
    var kind, n, rest := input[0], Length(input[1..5]), input[5..];
    LengthUnique(input[1..5], n);
    hide Length, LengthBytes;
    assert input[..5] == [kind] + LengthBytes(n);
    if kind == 3 && n == 1 { assert input[..6] == ExitFrame(rest[0]); }
  }

  lemma LengthUnique(b: Bytes, n: nat)
    requires |b| == 4 && Length(b) == n
    ensures n < 0x8000_0000 && b == LengthBytes(n)
  {
    var c := LengthBytes(n);
    assert b[0] == c[0] && b[1] == c[1] && b[2] == c[2] && b[3] == c[3];
  }

  // --- The bytes themselves ---------------------------------------------------------

  /** The 32-bit number of four bytes, lowest byte first. */
  function Unsigned(a: byte, b: byte, c: byte, d: byte): nat
  {
    a as nat + 256 * (b as nat + 256 * (c as nat + 256 * (d as nat)))
  }

  /** Where each byte of a frame stands: the kind, the length from its lowest byte on, then the data. */
  lemma FrameLayout(f: Frame, code: byte)
    requires |f.data| < 0x8000_0000
    ensures var e := Encode(f);
            && |e| == 5 + |f.data| && e[0] == (if f.Out? then 1 else 2) && e[5..] == f.data
            && Unsigned(e[1], e[2], e[3], e[4]) == |f.data|
    ensures ExitFrame(code) == [3, 1, 0, 0, 0, code]
  {
    var b, c := LengthBytes(|f.data|), LengthBytes(1);
    var e := Encode(f);
    assert e[1] == b[0] && e[2] == b[1] && e[3] == b[2] && e[4] == b[3];
    assert c == [1, 0, 0, 0];
  }

  function Encoded(frames: seq<Frame>): Bytes
    requires Total(frames) < 0x8000_0000
  {
    if frames == [] then [] else Encode(frames[0]) + Encoded(frames[1..])
  }

  /** Frames at the head of a stream are gathered, and the rest is parsed with what they carried. */
  lemma {:induction false} ParseFrames(frames: seq<Frame>, rest: Bytes, stdout: Bytes, stderr: Bytes)
    requires |stdout| + |stderr| + Total(frames) <= LIMIT
    ensures Parse(Encoded(frames) + rest, stdout, stderr)
         == Parse(rest, stdout + Carried(frames, true), stderr + Carried(frames, false))
  {
    hide Parse, Encode;
    if frames == [] {
      assert [] + rest == rest && stdout + [] == stdout && stderr + [] == stderr;
    } else {
      var f, tail := frames[0], Encoded(frames[1..]) + rest;
      assert Encoded(frames) + rest == Encode(f) + tail;
      ParseFrame(f, tail, stdout, stderr);
      ParseFrames(frames[1..], rest, if f.Out? then stdout + f.data else stdout, if f.Out? then stderr
          else stderr + f.data);
      CarriedFirst(frames, stdout, stderr);
      hide Carried;
    }
  }

  lemma {:induction false} CarriedTotal(frames: seq<Frame>)
    ensures |Carried(frames, true)| + |Carried(frames, false)| == Total(frames)
  {
    if frames != [] { CarriedTotal(frames[1..]); }
  }

  /** Why a stream is refused: what follows its well-formed frames, byte by byte. */
  lemma RefusedFor(frames: seq<Frame>, rest: Bytes)
    requires Total(frames) <= 0x10_0000
    ensures var parsed := Parse(Encoded(frames) + rest, [], []);
            if |rest| < 5 then parsed == Failed(EndOfStream)
            else
              var n := Unsigned(rest[1], rest[2], rest[3], rest[4]);
              && (Total(frames) + n > 0x10_0000 ==> parsed == Failed(TooLarge))
              && (Total(frames) + n <= 0x10_0000 ==>
                    && (rest[0] == 3 && n != 1 ==> parsed == Failed(BadExitFrame))
                    && (rest[0] !in {1, 2, 3} ==> parsed == Failed(UnexpectedKind))
                    && (rest[0] in {1, 2} && |rest| - 5 < n ==> parsed == Failed(EndOfStream))
                    && (rest[0] == 3 && n == 1 && |rest| == 5 ==> parsed == Failed(EndOfStream)))
  {
    ParseFrames(frames, rest, [], []);
    CarriedTotal(frames);
    assert [] + Carried(frames, true) == Carried(frames, true) && [] + Carried(frames, false) == Carried(frames, false);
    hide Carried, Encoded, Total;
    if |rest| >= 5 {
      var b := rest[1..5];
      assert b[0] == rest[1] && b[1] == rest[2] && b[2] == rest[3] && b[3] == rest[4];
    }
  }
}
