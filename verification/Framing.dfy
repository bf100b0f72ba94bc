/** The bytes that a content digest hashes: each part behind its length as eight big-endian bytes.
    The frame determines its parts, so with a collision-free hash equal digests mean equal
    subjects, texts and bodies. Parts are the UTF-8 encodings of the rendered strings. */
module Framing {
  import opened Wrappers

  type Byte = b: int | 0 <= b < 256
  type Bytes = seq<Byte>

  const MAX_U64 := 0xFFFF_FFFF_FFFF_FFFF
  const LENGTH_WIDTH: nat := 8

  function Power256(width: nat): nat {
    if width == 0 then 1 else 256 * Power256(width - 1)
  }

  function BigEndian(n: nat, width: nat): (bytes: Bytes)
    ensures |bytes| == width
  {
    if width == 0 then [] else BigEndian(n / 256, width - 1) + [n % 256]
  }

  function FromBigEndian(bytes: Bytes): nat {
    if bytes == [] then 0
    else 256 * FromBigEndian(bytes[..|bytes| - 1]) + bytes[|bytes| - 1]
  }

  lemma {:induction false} NumberSurvives(n: nat, width: nat)
    requires n < Power256(width)
    ensures FromBigEndian(BigEndian(n, width)) == n
  {
    if width == 0 {
    } else {
      var bytes := BigEndian(n, width);
      assert bytes[..width - 1] == BigEndian(n / 256, width - 1);
      NumberSurvives(n / 256, width - 1);
    }
  }

  lemma {:induction false} BytesSurvive(bytes: Bytes)
    ensures FromBigEndian(bytes) < Power256(|bytes|)
    ensures BigEndian(FromBigEndian(bytes), |bytes|) == bytes
  {
    if bytes == [] {
    } else {
      BytesSurvive(bytes[..|bytes| - 1]);
    }
  }

  lemma WidthIsEight()
    ensures Power256(LENGTH_WIDTH) == MAX_U64 + 1
  {
    assert Power256(2) == 0x1_0000;
    assert Power256(4) == 0x1_0000_0000;
    assert Power256(6) == 0x1_0000_0000_0000;
  }

  /** A length as it is framed; no part on a 64-bit machine is too long for it. */
  function FramedLength(part: Bytes): nat {
    if |part| <= MAX_U64 then |part| else MAX_U64
  }

  predicate Measurable(parts: seq<Bytes>) {
    forall part | part in parts :: |part| <= MAX_U64
  }

  function Frame(parts: seq<Bytes>): Bytes {
    if parts == [] then
      []
    else
      BigEndian(FramedLength(parts[0]), LENGTH_WIDTH) + parts[0] + Frame(parts[1..])
  }

  lemma FrameOfNothing()
    ensures Frame([]) == []
  {
  }

  lemma FrameGoesOn(hashed: Bytes, parts: seq<Bytes>, i: nat)
    requires i < |parts|
    ensures hashed + Frame(parts[i..]) ==
            hashed + BigEndian(FramedLength(parts[i]), LENGTH_WIDTH) + parts[i] + Frame(parts[i + 1..])
  {
    hide BigEndian, FramedLength;
    assert parts[i..][1..] == parts[i + 1..];
  }

  /** Feeds the parts of a message to the hasher; `hashed` is all that it was fed. */
  method ContentFrame(subject: Bytes, text: Bytes, html: Bytes) returns (hashed: Bytes)
    ensures hashed == Frame([subject, text, html])
  {
    hide Frame, BigEndian, FramedLength;
    var parts := [subject, text, html];
    hashed := [];
    assert parts[0..] == parts;
    for i := 0 to |parts|
      invariant hashed + Frame(parts[i..]) == Frame(parts)
    {
      FrameGoesOn(hashed, parts, i);
      hashed := hashed + BigEndian(FramedLength(parts[i]), LENGTH_WIDTH);
      hashed := hashed + parts[i];
    }
    FrameOfNothing();
    assert parts[|parts|..] == [];
  }

  /** Takes a frame of `count` parts apart. */
  function Unframe(bytes: Bytes, count: nat): Option<seq<Bytes>> {
    if count == 0 then
      if bytes == [] then Some([]) else None
    else if |bytes| < LENGTH_WIDTH then
      None
    else
      var end := LENGTH_WIDTH + FromBigEndian(bytes[..LENGTH_WIDTH]);
      if |bytes| < end then
        None
      else
        match Unframe(bytes[end..], count - 1)
        case None => None
        case Some(rest) => Some([bytes[LENGTH_WIDTH..end]] + rest)
  }

  lemma FrameOfMore(part: Bytes, rest: seq<Bytes>)
    requires |part| <= MAX_U64
    ensures Frame([part] + rest) == BigEndian(|part|, LENGTH_WIDTH) + part + Frame(rest)
  {
    hide BigEndian;
    assert ([part] + rest)[1..] == rest;
  }

  lemma {:induction false} FrameSurvives(parts: seq<Bytes>)
    requires Measurable(parts)
    ensures Unframe(Frame(parts), |parts|) == Some(parts)
  {
    if parts == [] {
    } else {
      hide BigEndian, FromBigEndian, Power256, Frame;
      var part, rest := parts[0], parts[1..];
      assert parts == [part] + rest;
      FrameOfMore(part, rest);
      var bytes, end := Frame(parts), LENGTH_WIDTH + |part|;
      WidthIsEight();
      NumberSurvives(|part|, LENGTH_WIDTH);
      assert bytes[..LENGTH_WIDTH] == BigEndian(|part|, LENGTH_WIDTH);
      assert bytes[LENGTH_WIDTH..end] == part;
      assert bytes[end..] == Frame(rest);
      FrameSurvives(rest);
    }
  }

  lemma CutInThree(bytes: Bytes, m: nat, n: nat)
    requires m <= n <= |bytes|
    ensures bytes == bytes[..m] + bytes[m..n] + bytes[n..]
  {
  }

  /** Every byte of a frame is accounted for by its parts. */
  lemma {:induction false} UnframedSurvives(bytes: Bytes, count: nat)
    requires Unframe(bytes, count).Some?
    ensures var parts := Unframe(bytes, count).value;
            |parts| == count && Measurable(parts) && Frame(parts) == bytes
  {
    if count > 0 {
      hide BigEndian, FromBigEndian, Power256, Frame;
      var end := LENGTH_WIDTH + FromBigEndian(bytes[..LENGTH_WIDTH]);
      var part, rest := bytes[LENGTH_WIDTH..end], Unframe(bytes[end..], count - 1).value;
      WidthIsEight();
      BytesSurvive(bytes[..LENGTH_WIDTH]);
      UnframedSurvives(bytes[end..], count - 1);
      FrameOfMore(part, rest);
      CutInThree(bytes, LENGTH_WIDTH, end);
      assert Unframe(bytes, count) == Some([part] + rest);
    } else {
      FrameOfNothing();
    }
  }

  /** Messages with equal frames are equal, part by part. */
  lemma FrameDetermines(
    subject: Bytes, text: Bytes, html: Bytes, subject': Bytes, text': Bytes, html': Bytes)
    requires Measurable([subject, text, html]) && Measurable([subject', text', html'])
    requires Frame([subject, text, html]) == Frame([subject', text', html'])
    ensures subject == subject' && text == text' && html == html'
  {
    var parts, parts' := [subject, text, html], [subject', text', html'];
    FrameSurvives(parts);
    FrameSurvives(parts');
    assert parts == parts';
    assert parts[0] == parts'[0] && parts[1] == parts'[1] && parts[2] == parts'[2];
  }
}
