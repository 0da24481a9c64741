/**
 * The robot wire codec of protocol_robot.c: byte stuffing, the two-digit
 * ASCII checksum, and the three loops that build and check frames
 * (send_data, sum_check, and the unescaping loop of process_robot_data).
 *
 * A frame is HEAD, the escaped payload, two checksum digits, TAIL.  The
 * checksum is taken over the ESCAPED bytes, exactly as the firmware does.
 */
module WireCodec {
  import opened Types

  const HEAD: byte := 0x02
  const TAIL: byte := 0x03
  /** CONVERT: the escape marker. */
  const ESC: byte := 0x04
  /** CONVERT_2: second byte of the escape for HEAD. */
  const ESC_HEAD: byte := 0x06
  /** CONVERT_3: second byte of the escape for TAIL. */
  const ESC_TAIL: byte := 0x07
  /** Size of send_data's output buffer. */
  const FRAME_BUFFER := 33
  /** Size of the payload buffer process_robot_data decodes into. */
  const PAYLOAD_BUFFER := 30

  // ---------------------------------------------------------------------
  // Specification functions
  // ---------------------------------------------------------------------

  function EscapeByte(b: byte): seq<byte>
  {
    if b == ESC then [ESC, ESC]
    else if b == HEAD then [ESC, ESC_HEAD]
    else if b == TAIL then [ESC, ESC_TAIL]
    else [b]
  }

  function Escape(p: seq<byte>): seq<byte>
  {
    if p == [] then [] else EscapeByte(p[0]) + Escape(p[1..])
  }

  predicate IsEscapeCode(b: byte)
  {
    b == ESC || b == ESC_HEAD || b == ESC_TAIL
  }

  /** The byte an escape pair ESC, b stands for. */
  function Original(b: byte): byte
    requires IsEscapeCode(b)
  {
    if b == ESC_HEAD then HEAD else if b == ESC_TAIL then TAIL else ESC
  }

  /**
   * What the decoding loop produces from an escaped region: an escape pair
   * yields its original byte, and every other byte, including a marker
   * that is not followed by an escape code, is copied.
   */
  function Unescape(r: seq<byte>): seq<byte>
  {
    if r == [] then []
    else if r[0] == ESC && |r| >= 2 && IsEscapeCode(r[1]) then [Original(r[1])] + Unescape(r[2..])
    else [r[0]] + Unescape(r[1..])
  }

  function Sum(s: seq<byte>): nat
  {
    if s == [] then 0 else s[0] + Sum(s[1..])
  }

  /** The checksum digits: tens digit of the sum first, then the ones digit, in ASCII. */
  function Digits(sum: nat): seq<byte>
  {
    [0x30 + (sum / 10) % 10, 0x30 + sum % 10]
  }

  /** The frame send_data builds from a payload. */
  function Frame(p: seq<byte>): seq<byte>
  {
    [HEAD] + Escape(p) + Digits(Sum(Escape(p))) + [TAIL]
  }

  /** Whether the frame of p fits send_data's 33-byte buffer. */
  predicate Fits(p: seq<byte>)
  {
    |Escape(p)| + 4 <= FRAME_BUFFER
  }

  /** The frames put on the wire when a reply with payload p is sent. */
  function Transmitted(p: seq<byte>): seq<seq<byte>>
  {
    if Fits(p) then [Frame(p)] else []
  }

  /** The bytes between HEAD and the checksum digits. */
  function Region(f: seq<byte>): seq<byte>
  {
    if |f| >= 4 then f[1..|f| - 3] else []
  }

  /** sum_check: the two bytes before the tail are the digits of the region's sum. */
  predicate ChecksumOk(f: seq<byte>)
  {
    |f| >= 3 && f[|f| - 3] == Digits(Sum(Region(f)))[0] && f[|f| - 2] == Digits(Sum(Region(f)))[1]
  }

  /** A frame the receiver accepts, and the payload it stands for. */
  function Decode(f: seq<byte>): Option<seq<byte>>
  {
    if |f| >= 4 && f[0] == HEAD && f[|f| - 1] == TAIL && ChecksumOk(f) then Some(Unescape(Region(f)))
    else None
  }

  // ---------------------------------------------------------------------
  // Lemmas
  // ---------------------------------------------------------------------

  lemma {:induction false} EscapeAppend(a: seq<byte>, b: seq<byte>)
    ensures Escape(a + b) == Escape(a) + Escape(b)
  {
    if a == [] {
      assert a + b == b;
    } else {
      assert (a + b)[1..] == a[1..] + b;
      EscapeAppend(a[1..], b);
    }
  }

  lemma {:induction false} SumAppend(a: seq<byte>, b: seq<byte>)
    ensures Sum(a + b) == Sum(a) + Sum(b)
  {
    if a == [] {
      assert a + b == b;
    } else {
      assert (a + b)[1..] == a[1..] + b;
      SumAppend(a[1..], b);
    }
  }

  lemma {:induction false} SumBound(s: seq<byte>)
    ensures Sum(s) <= 255 * |s|
  {
    if s != [] { SumBound(s[1..]); }
  }

  /** Escaping at most doubles the length, and never shortens it. */
  lemma {:induction false} EscapeLength(p: seq<byte>)
    ensures |p| <= |Escape(p)| <= 2 * |p|
  {
    if p != [] { EscapeLength(p[1..]); }
  }

  /** Every reply payload the firmware builds with at most 14 bytes fits the 33-byte buffer. */
  lemma ShortPayloadFits(p: seq<byte>)
    requires |p| <= 14
    ensures Fits(p) && |Frame(p)| <= 2 * |p| + 4
  {
    EscapeLength(p);
  }

  /** Neither frame marker occurs in an escaped region. */
  lemma {:induction false} EscapeHasNoMarkers(p: seq<byte>)
    ensures forall k :: 0 <= k < |Escape(p)| ==> Escape(p)[k] != HEAD && Escape(p)[k] != TAIL
  {
    if p != [] {
      EscapeHasNoMarkers(p[1..]);
      var e, rest := EscapeByte(p[0]), Escape(p[1..]);
      assert Escape(p) == e + rest;
      forall k | 0 <= k < |Escape(p)|
        ensures Escape(p)[k] != HEAD && Escape(p)[k] != TAIL
      {
        if k >= |e| { assert Escape(p)[k] == rest[k - |e|]; }
      }
    }
  }

  /** Each escape yields exactly one byte, the one it stands for. */
  lemma EscapeByteThenUnescape(b: byte, rest: seq<byte>)
    ensures Unescape(EscapeByte(b) + rest) == [b] + Unescape(rest)
  {
    var e := EscapeByte(b);
    if |e| == 2 {
      assert (e + rest)[2..] == rest;
    } else {
      assert (e + rest)[1..] == rest;
    }
  }

  /** Round trip: unescaping what send_data escaped gives back the payload. */
  lemma {:induction false} UnescapeEscape(p: seq<byte>)
    ensures Unescape(Escape(p)) == p
  {
    if p != [] {
      UnescapeEscape(p[1..]);
      EscapeByteThenUnescape(p[0], Escape(p[1..]));
      assert [p[0]] + p[1..] == p;
    }
  }

  /** A marker not followed by an escape code is copied as it is. */
  lemma MarkerWithoutCodeIsLiteral(b: byte, rest: seq<byte>)
    requires !IsEscapeCode(b)
    ensures Unescape([ESC, b] + rest) == [ESC] + Unescape([b] + rest)
  {
    assert ([ESC, b] + rest)[1..] == [b] + rest;
  }

  /** The decoded payload is never longer than the escaped region. */
  lemma {:induction false} UnescapeShrinks(r: seq<byte>)
    ensures |Unescape(r)| <= |r|
    ensures r != [] ==> |Unescape(r)| >= 1
    decreases |r|
  {
    if r != [] {
      if r[0] == ESC && |r| >= 2 && IsEscapeCode(r[1]) {
        UnescapeShrinks(r[2..]);
      } else {
        UnescapeShrinks(r[1..]);
      }
    }
  }

  /** The two digits encode the sum modulo 100, and nothing else about it. */
  lemma DigitsEncodeMod100(a: nat, b: nat)
    ensures Digits(a) == Digits(b) <==> a % 100 == b % 100
    ensures 0x30 <= Digits(a)[0] <= 0x39 && 0x30 <= Digits(a)[1] <= 0x39
  {
    var ta, oa := (a / 10) % 10, a % 10;
    var tb, ob := (b / 10) % 10, b % 10;
    assert a % 100 == 10 * ta + oa by { DivMod100(a); }
    assert b % 100 == 10 * tb + ob by { DivMod100(b); }
  }

  lemma DivMod100(a: nat)
    ensures a % 100 == 10 * ((a / 10) % 10) + a % 10
  {
    var q := a / 10;
    var k := q / 10;
    var r := 10 * (q % 10) + a % 10;
    assert a == 10 * q + a % 10;
    assert q == 10 * k + q % 10;
    assert a == 100 * k + r;
    ModOfSplit(a, k, r);
  }

  /** The remainder by 100 is unique once a quotient and remainder are exhibited. */
  lemma ModOfSplit(a: int, k: int, r: int)
    requires a == 100 * k + r && 0 <= r < 100
    ensures a % 100 == r
  {
  }

  lemma FrameRegion(p: seq<byte>)
    ensures |Frame(p)| == |Escape(p)| + 4
    ensures Region(Frame(p)) == Escape(p)
    ensures Frame(p)[|Frame(p)| - 3..|Frame(p)| - 1] == Digits(Sum(Escape(p)))
  {
    var f := Frame(p);
    assert f[1..|f| - 3] == Escape(p);
  }

  /**
   * A frame starts with HEAD, ends with TAIL, and neither marker occurs
   * anywhere between them.
   */
  lemma FrameShape(p: seq<byte>)
    ensures var f := Frame(p);
      && |f| >= 4 && f[0] == HEAD && f[|f| - 1] == TAIL
      && forall k :: 0 < k < |f| - 1 ==> f[k] != HEAD && f[k] != TAIL
  {
    var f, e := Frame(p), Escape(p);
    EscapeHasNoMarkers(p);
    DigitsEncodeMod100(Sum(e), Sum(e));
    forall k | 0 < k < |f| - 1
      ensures f[k] != HEAD && f[k] != TAIL
    {
      if k <= |e| { assert f[k] == e[k - 1]; }
    }
  }

  /** Every frame send_data builds passes sum_check and decodes to its payload. */
  lemma DecodeFrame(p: seq<byte>)
    ensures ChecksumOk(Frame(p))
    ensures Decode(Frame(p)) == Some(p)
  {
    FrameRegion(p);
    UnescapeEscape(p);
  }

  /** A frame whose digits are not those of its region's sum is rejected. */
  lemma WrongDigitsRejected(e: seq<byte>, d: seq<byte>)
    requires |d| == 2 && d != Digits(Sum(e))
    ensures !ChecksumOk([HEAD] + e + d + [TAIL])
    ensures Decode([HEAD] + e + d + [TAIL]) == None
  {
    var f := [HEAD] + e + d + [TAIL];
    assert Region(f) == e;
    assert f[|f| - 3] == d[0] && f[|f| - 2] == d[1];
  }

  /** Escaping a payload one more byte appends that byte's escape. */
  lemma EscapeStep(data: seq<byte>, i: nat)
    requires i < |data|
    ensures Escape(data[..i + 1]) == Escape(data[..i]) + EscapeByte(data[i])
  {
    EscapeAppend(data[..i], [data[i]]);
    assert data[..i + 1] == data[..i] + [data[i]];
    assert Escape([data[i]]) == EscapeByte(data[i]) by { assert [data[i]][1..] == []; }
  }

  /** One step of the decoding loop at position i of the region. */
  lemma UnescapeAt(r: seq<byte>, i: nat)
    requires i < |r|
    ensures r[i] == ESC && i + 1 < |r| && IsEscapeCode(r[i + 1]) ==>
      Unescape(r[i..]) == [Original(r[i + 1])] + Unescape(r[i + 2..])
    ensures !(r[i] == ESC && i + 1 < |r| && IsEscapeCode(r[i + 1])) ==>
      Unescape(r[i..]) == [r[i]] + Unescape(r[i + 1..])
  {
    assert r[i..][1..] == r[i + 1..];
    if i + 1 < |r| { assert r[i..][2..] == r[i + 2..]; }
  }

  // ---------------------------------------------------------------------
  // The firmware's loops
  // ---------------------------------------------------------------------

  /**
   * One step of send_data's loop: b goes out as itself, or as CONVERT
   * followed by its code when it is one of the three markers.
   */
  method PutEscaped(buffer: array<byte>, n: nat, b: byte) returns (next: nat)
    requires n + |EscapeByte(b)| <= buffer.Length
    modifies buffer
    ensures next == n + |EscapeByte(b)|
    ensures buffer[..next] == old(buffer[..n]) + EscapeByte(b)
  {
    if b == ESC || b == HEAD || b == TAIL {
      // CONVERT followed by CONVERT, CONVERT_2 or CONVERT_3
      var code := if b == ESC then ESC else if b == HEAD then ESC_HEAD else ESC_TAIL;
      buffer[n] := ESC;
      buffer[n + 1] := code;
      next := n + 2;
    } else {
      buffer[n] := b;
      next := n + 1;
    }
  }

  /** A payload byte that would push the escaped bytes past the buffer means the whole frame cannot fit. */
  lemma OverflowRefuses(data: seq<byte>, i: nat)
    requires i < |data|
    requires 1 + |Escape(data[..i])| + |EscapeByte(data[i])| > FRAME_BUFFER - 3
    ensures !Fits(data)
  {
    EscapeStep(data, i);
    EscapeAppend(data[..i + 1], data[i + 1..]);
    assert data == data[..i + 1] + data[i + 1..];
  }

  /** Addition in the firmware's uint16 sum: wraps at 2^16, and is exact below it. */
  function Add16(a: nat, b: nat): (r: nat)
    ensures r < 0x1_0000
    ensures a + b < 0x1_0000 ==> r == a + b
  {
    (a + b) % 0x1_0000
  }

  /** The end of send_data: the two checksum digits of `sum` and TAIL after the first n bytes. */
  method PutTrailer(buffer: array<byte>, n: nat, sum: nat)
    requires n + 3 <= buffer.Length
    modifies buffer
    ensures buffer[..n + 3] == old(buffer[..n]) + Digits(sum) + [TAIL]
  {
    var ones := 0x30 + sum % 10;
    var tens := 0x30 + (sum / 10) % 10;
    buffer[n] := tens;
    buffer[n + 1] := ones;
    buffer[n + 2] := TAIL;
    assert buffer[..n + 3] == buffer[..n] + [tens, ones, TAIL];
  }

  /**
   * send_data: writes HEAD, the escaped payload with a running uint16 sum,
   * the two checksum digits and TAIL into a 33-byte buffer.  The firmware
   * does not check the buffer bound; here a payload whose frame would not
   * fit is refused and nothing is produced.
   */
  method SendData(data: seq<byte>) returns (frame: Option<seq<byte>>)
    ensures frame == if Fits(data) then Some(Frame(data)) else None
  {
    var buffer := new byte[FRAME_BUFFER];
    buffer[0] := HEAD;
    var n := 1;
    var sum: int := 0;
    ghost var esc: seq<byte> := [];
    var i := 0;
    while i < |data|
      invariant 0 <= i <= |data|
      invariant esc == Escape(data[..i])
      invariant n == 1 + |esc| && n <= FRAME_BUFFER - 3
      invariant buffer[..n] == [HEAD] + esc
      invariant sum == Sum(esc)
    {
      var b := data[i];
      if n + |EscapeByte(b)| > FRAME_BUFFER - 3 {
        OverflowRefuses(data, i);
        return None;
      }
      EscapeStep(data, i);
      ghost var e := EscapeByte(b);
      SumAppend(esc, e);
      SumBound(esc + e);
      assert sum + Sum(e) == Sum(esc + e) <= 255 * 30;
      sum := Add16(sum, Sum(EscapeByte(b)));
      n := PutEscaped(buffer, n, b);
      esc := esc + EscapeByte(b);
      i := i + 1;
    }
    assert data[..i] == data;
    PutTrailer(buffer, n, sum);
    n := n + 3;
    frame := Some(buffer[..n]);
  }

  /**
   * sum_check: adds up the bytes between HEAD and the checksum in a uint16
   * and compares the received digits with the computed ones.  A frame is at
   * most 255 bytes long, so the sum never wraps.
   */
  method SumCheck(data: seq<byte>) returns (ok: bool)
    requires 3 <= |data| <= 255
    ensures ok == ChecksumOk(data)
    ensures ok ==> 0x30 <= data[|data| - 3] <= 0x39
  {
    var sum: int := 0;
    var i := 0;
    while i < |data| - 4
      invariant 0 <= i <= if |data| >= 4 then |data| - 4 else 0
      invariant sum == Sum(data[1..i + 1])
    {
      assert data[1..i + 2] == data[1..i + 1] + [data[i + 1]];
      SumAppend(data[1..i + 1], [data[i + 1]]);
      SumBound(data[1..i + 2]);
      sum := Add16(sum, data[i + 1]);
      i := i + 1;
    }
    assert data[1..i + 1] == Region(data);
    var recv0, recv1 := data[|data| - 3], data[|data| - 2];
    var calc1 := sum % 10 + 0x30;
    sum := sum / 10;
    var calc0 := sum % 10 + 0x30;
    ok := recv0 == calc0 && recv1 == calc1;
  }

  /**
   * One step of process_robot_data's decoding loop at region position i:
   * CONVERT followed by an escape code stands for the marker it encodes,
   * any other byte for itself.  The lookahead may read the first checksum
   * digit, which is never an escape code.
   */
  method DecodeAt(data: seq<byte>, i: nat) returns (out: byte, next: nat)
    requires |data| >= 4 && i < |Region(data)|
    requires !IsEscapeCode(data[|data| - 3])
    ensures i < next <= |Region(data)|
    ensures Unescape(Region(data)[i..]) == [out] + Unescape(Region(data)[next..])
  {
    ghost var region := Region(data);
    UnescapeAt(region, i);
    assert data[i + 1] == region[i];
    assert i + 1 < |region| ==> data[i + 2] == region[i + 1];
    if data[i + 1] == ESC && IsEscapeCode(data[i + 2]) {
      if data[i + 2] == ESC_HEAD {
        out := HEAD;
      } else if data[i + 2] == ESC_TAIL {
        out := TAIL;
      } else {
        out := ESC;
      }
      next := i + 2;
    } else {
      out := data[i + 1];
      next := i + 1;
    }
  }

  /**
   * The unescaping loop of process_robot_data, run on a frame whose
   * checksum was accepted.  It decodes into a 30-byte buffer whose
   * previous contents are `stale` (the firmware's buffer is an
   * uninitialised local, so bytes past the decoded ones are whatever it
   * held).  The lookahead after the last region byte reads the first
   * checksum digit, which is never an escape code.  A region that would
   * overflow the buffer is refused.
   */
  method UnescapeRegion(data: seq<byte>, stale: seq<byte>) returns (r: Option<seq<byte>>, count: nat)
    requires |data| >= 4 && |stale| == PAYLOAD_BUFFER
    requires ChecksumOk(data)
    ensures var d := Unescape(Region(data));
      && r == (if |d| <= PAYLOAD_BUFFER then Some(d + stale[|d|..]) else None)
      && (r.Some? ==> count == |d|)
  {
    DigitsEncodeMod100(Sum(Region(data)), Sum(Region(data)));
    var payload := new byte[PAYLOAD_BUFFER](k requires 0 <= k < PAYLOAD_BUFFER => stale[k]);
    ghost var region := Region(data);
    ghost var whole := Unescape(region);
    ghost var decoded: seq<byte> := [];
    var n := 0;
    var i := 0;
    while i < |data| - 4
      invariant 0 <= i <= |region| && 0 <= n <= PAYLOAD_BUFFER && n == |decoded|
      invariant whole == decoded + Unescape(region[i..])
      invariant payload[..] == decoded + stale[n..]
    {
      if n == PAYLOAD_BUFFER {
        UnescapeShrinks(region[i..]);
        return None, n;
      }
      var out;
      out, i := DecodeAt(data, i);
      assert whole == (decoded + [out]) + Unescape(region[i..]);
      payload[n] := out;
      decoded := decoded + [out];
      assert payload[..] == decoded + stale[n + 1..];
      n := n + 1;
    }
    assert i == |region| && region[i..] == [];
    assert whole == decoded;
    assert |whole| <= PAYLOAD_BUFFER;
    r := Some(payload[..]);
    count := n;
  }
}
