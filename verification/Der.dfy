/**
  DER printing and parsing of ECDSA signatures (sections 8.1.3 and 8.3 of ITU-T X.690, section 2.2.3 of RFC 3279),
  and the low-s form.
 */
module Der {
  import opened Prelude
  import opened Types
  import opened Encoding

  const SECP256K1_ORDER: nat := 0xFFFFFFFFFFFFFFFFFFFFFFFFFFFFFFFEBAAEDCE6AF48A03BBFD25E8CD0364141
  const LOW_S_MAX: nat := SECP256K1_ORDER / 2

  datatype DerError =
    | InvalidLengthOffset
    | InvalidLength
    | InvalidSequence
    | InvalidSequenceLength
    | InvalidIntegerTag
    | TrailingBytes
    | IndexOutOfRange
    | NegativeInteger
    | LengthOverflow

  // ----- Parsing

  /** A length and the offset behind it. */
  function ReadLength(data: Bytes, offset: nat): Result<(nat, nat), DerError> {
    if offset >= |data| then Err(InvalidLengthOffset)
    else
      var first, next := data[offset] as nat, offset + 1;
      if first < 0x80 then Ok((first, next))
      else
        var octets := first - 0x80;
        if octets == 0 || next + octets > |data| then Err(InvalidLength)
        else Ok((FromBytes(data[next..next + octets]), next + octets))
  }

  /** A slice that stops at the end of the data, as slices do. */
  function Slice(data: Bytes, begin: nat, length: nat): Bytes {
    if begin >= |data| then []
    else if begin + length > |data| then data[begin..]
    else data[begin..begin + length]
  }

  /** One tagged integer: its value and the offset behind it, which may lie beyond the data. */
  function ReadInteger(data: Bytes, offset: nat): Result<(nat, nat), DerError> {
    if offset >= |data| then Err(IndexOutOfRange)
    else if data[offset] != 0x02 then Err(InvalidIntegerTag)
    else
      var length := ReadLength(data, offset + 1);
      if length.Err? then Err(length.error)
      else Ok((FromBytes(Slice(data, length.value.1, length.value.0)), length.value.1 + length.value.0))
  }

  function ParseSignature(signature: Bytes): Result<(nat, nat), DerError> {
    if |signature| < 8 || signature[0] != 0x30 then Err(InvalidSequence)
    else
      var length := ReadLength(signature, 1);
      if length.Err? then Err(length.error)
      else if length.value.1 + length.value.0 != |signature| then Err(InvalidSequenceLength)
      else
        var r := ReadInteger(signature, length.value.1);
        if r.Err? then Err(r.error)
        else
          var s := ReadInteger(signature, r.value.1);
          if s.Err? then Err(s.error)
          else if s.value.1 != |signature| then Err(TrailingBytes)
          else Ok((r.value.0, s.value.0))
  }

  // ----- Printing

  /** The leading octet of a long length; beyond 127 octets its count runs into the marker bit, beyond 255 out of the octet. */
  function LongForm(octets: nat): Option<byte> {
    if octets < 0x80 then Some((0x80 + octets) as byte)
    else if octets < 0x100 then Some(octets as byte)
    else None
  }

  function PrintLength(length: nat): Option<Bytes> {
    if length < 0x80 then Some([length as byte])
    else
      var raw := ToBytes(length);
      var first := LongForm(|raw|);
      if first.None? then None else Some([first.value] + raw)
  }

  /** The shortest octets of a non-negative integer whose sign bit is clear. */
  function IntegerOctets(value: nat): Bytes {
    var raw := ToBytes(value);
    if raw[0] >= 0x80 then [0] + raw else raw
  }

  function PrintInteger(value: nat): Option<Bytes> {
    var raw := IntegerOctets(value);
    var length := PrintLength(|raw|);
    if length.None? then None else Some([0x02] + length.value + raw)
  }

  function PrintSignature(r: nat, s: nat): Option<Bytes> {
    var first, second := PrintInteger(r), PrintInteger(s);
    if first.None? || second.None? then None
    else
      var body := first.value + second.value;
      var length := PrintLength(|body|);
      if length.None? then None else Some([0x30] + length.value + body)
  }

  // ----- Printing and parsing undo each other

  /** The length's own length fits the long form. */
  predicate Fits(length: nat) {
    length < 0x80 || |ToBytes(length)| < 0x80
  }

  /** These octets lie in the data at this offset. */
  ghost predicate At(data: Bytes, offset: nat, part: Bytes) {
    offset + |part| <= |data| && data[offset..offset + |part|] == part
  }

  lemma PartsLieAt(data: Bytes, offset: nat, a: Bytes, b: Bytes)
    requires At(data, offset, a + b)
    ensures At(data, offset, a) && At(data, offset + |a|, b)
  {
    assert a == (a + b)[..|a|] && b == (a + b)[|a|..];
  }

  lemma FirstLiesAt(data: Bytes, offset: nat, part: Bytes)
    requires At(data, offset, part) && part != []
    ensures offset < |data| && data[offset] == part[0]
  {
    assert part[0] == data[offset..offset + |part|][0];
  }

  lemma {:induction false} LeadingZero(raw: Bytes)
    ensures FromBytes([0] + raw) == FromBytes(raw)
  {
    if raw == [] {
      assert ([0 as byte] + raw)[..0] == [];
    } else {
      assert ([0 as byte] + raw)[..|raw|] == [0] + raw[..|raw| - 1];
      LeadingZero(raw[..|raw| - 1]);
    }
  }

  lemma IntegerRoundTrip(value: nat)
    ensures FromBytes(IntegerOctets(value)) == value && IntegerOctets(value) != []
  {
    BytesRoundTrip(value);
    LeadingZero(ToBytes(value));
  }

  lemma SliceAt(data: Bytes, offset: nat, part: Bytes)
    requires At(data, offset, part) && part != []
    ensures Slice(data, offset, |part|) == part
  {
  }

  lemma ReadLengthAt(data: Bytes, offset: nat, length: nat, printed: Bytes)
    requires Fits(length) && PrintLength(length) == Some(printed) && At(data, offset, printed)
    ensures ReadLength(data, offset) == Ok((length, offset + |printed|))
  {
    FirstLiesAt(data, offset, printed);
    if length >= 0x80 {
      PartsLieAt(data, offset, [printed[0]], ToBytes(length));
      BytesRoundTrip(length);
    }
  }

  lemma {:induction false} ReadSteps(data: Bytes, offset: nat, size: nat, start: nat, raw: Bytes)
    requires offset < |data| && data[offset] == 0x02 && ReadLength(data, offset + 1) == Ok((size, start))
    requires Slice(data, start, size) == raw
    ensures ReadInteger(data, offset) == Ok((FromBytes(raw), start + size))
  {
  }

  lemma IntegerParts(data: Bytes, offset: nat, value: nat, printed: Bytes) returns (length: Bytes, raw: Bytes)
    requires PrintInteger(value) == Some(printed) && At(data, offset, printed)
    ensures raw == IntegerOctets(value) && PrintLength(|raw|) == Some(length) && |printed| == 1 + |length| + |raw|
    ensures offset < |data| && data[offset] == 0x02
    ensures At(data, offset + 1, length) && At(data, offset + 1 + |length|, raw)
  {
    raw := IntegerOctets(value);
    length := PrintLength(|raw|).value;
    FirstLiesAt(data, offset, printed);
    PartsLieAt(data, offset, [0x02] + length, raw);
    PartsLieAt(data, offset, [0x02], length);
  }

  lemma ReadIntegerAt(data: Bytes, offset: nat, value: nat, printed: Bytes)
    requires Fits(|IntegerOctets(value)|) && PrintInteger(value) == Some(printed) && At(data, offset, printed)
    ensures ReadInteger(data, offset) == Ok((value, offset + |printed|))
  {
    var length, raw := IntegerParts(data, offset, value, printed);
    IntegerRoundTrip(value);
    ReadLengthAt(data, offset + 1, |raw|, length);
    SliceAt(data, offset + 1 + |length|, raw);
    ReadSteps(data, offset, |raw|, offset + 1 + |length|, raw);
  }

  // ----- Sizes

  lemma {:induction false} BytesGrow(a: nat, b: nat)
    requires a <= b
    ensures |ToBytes(a)| <= |ToBytes(b)|
  {
    if a >= 256 {
      BytesGrow(a / 256, b / 256);
    }
  }

  lemma {:induction false} OddByteSize(w: nat)
    ensures |ToBytes(2 * w + 1)| == |ToBytes(2 * w)|
  {
    if 2 * w >= 256 {
      assert (2 * w + 1) / 256 == (2 * w) / 256;
    }
  }

  lemma {:induction false} FirstByteStays(n: nat)
    ensures n >= 256 ==> ToBytes(n)[0] == ToBytes(n / 256)[0]
  {
  }

  /** The sign bit makes room for the value doubled. */
  lemma {:induction false} OctetsOfDouble(value: nat)
    ensures |IntegerOctets(value)| == |ToBytes(2 * value)|
  {
    if value >= 256 {
      OctetsOfDouble(value / 256);
      FirstByteStays(value);
      var half := value / 256;
      assert (2 * value) / 256 == 2 * half || (2 * value) / 256 == 2 * half + 1;
      OddByteSize(half);
    }
  }

  lemma OctetsGrow(a: nat, b: nat)
    requires a <= b
    ensures |IntegerOctets(a)| <= |IntegerOctets(b)|
  {
    OctetsOfDouble(a);
    OctetsOfDouble(b);
    BytesGrow(2 * a, 2 * b);
  }

  lemma FitsBelow(a: nat, b: nat)
    requires a <= b && Fits(b)
    ensures Fits(a) && PrintLength(a).Some? && PrintLength(b).Some? && |PrintLength(a).value| <= |PrintLength(b).value|
  {
    BytesGrow(a, b);
  }

  // ----- Whole signatures

  /** The lengths of both integers and of the body can be printed, the last one in at most 127 octets. */
  predicate FitsSignature(r: nat, s: nat) {
    && PrintInteger(r).Some? && PrintInteger(s).Some?
    && Fits(|PrintInteger(r).value| + |PrintInteger(s).value|)
  }

  lemma IntegersFit(r: nat, s: nat)
    requires FitsSignature(r, s)
    ensures Fits(|IntegerOctets(r)|) && Fits(|IntegerOctets(s)|)
  {
    var total := |PrintInteger(r).value| + |PrintInteger(s).value|;
    FitsBelow(|IntegerOctets(r)|, total);
    FitsBelow(|IntegerOctets(s)|, total);
  }

  lemma IntegerTakesThree(value: nat)
    requires PrintInteger(value).Some?
    ensures |PrintInteger(value).value| >= 3
  {
    IntegerRoundTrip(value);
  }

  /** A printed signature and its parts. */
  ghost predicate HasParts(data: Bytes, length: Bytes, first: Bytes, second: Bytes) {
    && |data| == 1 + |length| + |first| + |second| && |data| >= 8 && data[0] == 0x30
    && At(data, 1, length) && At(data, 1 + |length|, first) && At(data, 1 + |length| + |first|, second)
  }

  lemma SignatureParts(data: Bytes, length: Bytes, first: Bytes, second: Bytes)
    requires At(data, 0, [0x30] + length + (first + second))
    ensures At(data, 1, length) && At(data, 1 + |length|, first) && At(data, 1 + |length| + |first|, second)
  {
    PartsLieAt(data, 0, [0x30] + length, first + second);
    PartsLieAt(data, 0, [0x30], length);
    PartsLieAt(data, 1 + |length|, first, second);
  }

  lemma PrintedShape(r: nat, s: nat) returns (data: Bytes, length: Bytes, first: Bytes, second: Bytes)
    requires FitsSignature(r, s)
    ensures PrintSignature(r, s) == Some(data) && PrintInteger(r) == Some(first) && PrintInteger(s) == Some(second)
    ensures PrintLength(|first| + |second|) == Some(length) && HasParts(data, length, first, second)
  {
    IntegerTakesThree(r);
    IntegerTakesThree(s);
    data, first, second := PrintSignature(r, s).value, PrintInteger(r).value, PrintInteger(s).value;
    length := PrintLength(|first + second|).value;
    SignatureParts(data, length, first, second);
  }

  lemma FirstReads(data: Bytes, length: Bytes, first: Bytes, second: Bytes, r: nat)
    requires HasParts(data, length, first, second) && Fits(|IntegerOctets(r)|) && PrintInteger(r) == Some(first)
    ensures ReadInteger(data, 1 + |length|) == Ok((r, 1 + |length| + |first|))
  {
    ReadIntegerAt(data, 1 + |length|, r, first);
  }

  lemma SecondReads(data: Bytes, length: Bytes, first: Bytes, second: Bytes, s: nat)
    requires HasParts(data, length, first, second) && Fits(|IntegerOctets(s)|) && PrintInteger(s) == Some(second)
    ensures ReadInteger(data, 1 + |length| + |first|) == Ok((s, |data|))
  {
    ReadIntegerAt(data, 1 + |length| + |first|, s, second);
  }

  lemma LengthReads(data: Bytes, length: Bytes, first: Bytes, second: Bytes)
    requires HasParts(data, length, first, second)
    requires Fits(|first| + |second|) && PrintLength(|first| + |second|) == Some(length)
    ensures ReadLength(data, 1) == Ok((|first| + |second|, 1 + |length|))
  {
    ReadLengthAt(data, 1, |first| + |second|, length);
  }

  lemma ParsePrinted(r: nat, s: nat)
    requires FitsSignature(r, s)
    ensures PrintSignature(r, s).Some? && ParseSignature(PrintSignature(r, s).value) == Ok((r, s))
  {
    var data, length, first, second := PrintedShape(r, s);
    IntegersFit(r, s);
    LengthReads(data, length, first, second);
    FirstReads(data, length, first, second, r);
    SecondReads(data, length, first, second, s);
    ParseSteps(data, |first| + |second|, 1 + |length|, r, 1 + |length| + |first|, s);
  }

  lemma ParseSteps(data: Bytes, size: nat, a: nat, r: nat, b: nat, s: nat)
    requires |data| >= 8 && data[0] == 0x30 && ReadLength(data, 1) == Ok((size, a)) && a + size == |data|
    requires ReadInteger(data, a) == Ok((r, b)) && ReadInteger(data, b) == Ok((s, |data|))
    ensures ParseSignature(data) == Ok((r, s))
  {
  }

  lemma {:induction false} PrefixIsSmaller(raw: Bytes, m: nat)
    requires m <= |raw|
    ensures FromBytes(raw[..m]) <= FromBytes(raw)
  {
    if m < |raw| {
      assert raw[..|raw| - 1][..m] == raw[..m];
      PrefixIsSmaller(raw[..|raw| - 1], m);
    } else {
      assert raw[..m] == raw;
    }
  }

  /** A length that needs more than 127 octets is printed, if at all, so that it cannot be read back. */
  lemma OverlongIsRefused(body: Bytes)
    requires !Fits(|body|) && PrintLength(|body|).Some?
    ensures ParseSignature([0x30] + PrintLength(|body|).value + body).Err?
  {
    var raw := ToBytes(|body|);
    var data := [0x30] + PrintLength(|body|).value + body;
    var octets := |raw| - 0x80;
    assert data[1] as nat == |raw|;
    assert data == [0x30, data[1]] + raw + body;
    if octets > 0 {
      assert data[2..2 + octets] == raw[..octets];
      PrefixIsSmaller(raw, octets);
      BytesRoundTrip(|body|);
    }
  }

  /** Printing and parsing undo each other exactly while the length of the body takes at most 127 octets. */
  lemma SignatureRoundTrip(r: nat, s: nat)
    ensures PrintSignature(r, s).Some? && ParseSignature(PrintSignature(r, s).value) == Ok((r, s)) <==> FitsSignature(r, s)
  {
    if FitsSignature(r, s) {
      ParsePrinted(r, s);
    } else if PrintSignature(r, s).Some? {
      var body := PrintInteger(r).value + PrintInteger(s).value;
      OverlongIsRefused(body);
      assert PrintSignature(r, s).value == [0x30] + PrintLength(|body|).value + body;
    }
  }

  // ----- The low-s form

  function LowS(s: nat): nat
    requires s <= SECP256K1_ORDER
  {
    if s > LOW_S_MAX then SECP256K1_ORDER - s else s
  }

  function NormalizeLowS(signature: Bytes): Result<Bytes, DerError> {
    var parsed := ParseSignature(signature);
    if parsed.Err? then Err(parsed.error)
    else
      var (r, s) := parsed.value;
      if s > SECP256K1_ORDER then Err(NegativeInteger)
      else
        var printed := PrintSignature(r, LowS(s));
        if printed.None? then Err(LengthOverflow) else Ok(printed.value)
  }

  function IsLowS(signature: Bytes): Result<bool, DerError> {
    var parsed := ParseSignature(signature);
    if parsed.Err? then Err(parsed.error) else Ok(0 < parsed.value.1 <= LOW_S_MAX)
  }

  lemma SmallerFits(r: nat, low: nat, s: nat)
    requires FitsSignature(r, s) && low <= s
    ensures FitsSignature(r, low)
  {
    IntegersFit(r, s);
    OctetsGrow(low, s);
    FitsBelow(|IntegerOctets(low)|, |IntegerOctets(s)|);
    FitsBelow(|PrintInteger(r).value| + |PrintInteger(low).value|, |PrintInteger(r).value| + |PrintInteger(s).value|);
  }

  /**
    Normalising a printed signature with 0 < s < order keeps r, makes s the lesser of s and order - s, passes the
    low-s test, and changes nothing the second time.
   */
  lemma NormalizeMakesLow(r: nat, s: nat)
    requires FitsSignature(r, s) && 0 < s < SECP256K1_ORDER
    ensures PrintSignature(r, s).Some?
    ensures var normal := NormalizeLowS(PrintSignature(r, s).value);
            && normal.Ok?
            && ParseSignature(normal.value) == Ok((r, if s < SECP256K1_ORDER - s then s else SECP256K1_ORDER - s))
            && IsLowS(normal.value) == Ok(true)
            && IsLowS(PrintSignature(r, s).value) == Ok(s < SECP256K1_ORDER - s)
            && NormalizeLowS(normal.value) == normal
  {
    hide FitsSignature, ParseSignature, PrintSignature;
    ParsePrinted(r, s);
    SmallerFits(r, LowS(s), s);
    ParsePrinted(r, LowS(s));
  }

  lemma OrderIsOdd()
    ensures SECP256K1_ORDER == 2 * LOW_S_MAX + 1
  {
  }

  /** The low-s test passes exactly the signatures whose s lies above zero and below half the order. */
  lemma LowTestDecides(r: nat, s: nat)
    requires FitsSignature(r, s)
    ensures PrintSignature(r, s).Some?
    ensures IsLowS(PrintSignature(r, s).value) == Ok(0 < s && 2 * s < SECP256K1_ORDER)
  {
    hide FitsSignature, ParseSignature, PrintSignature;
    ParsePrinted(r, s);
    OrderIsOdd();
  }

  /** Of a signature and its twin with order - s exactly one passes the low-s test. */
  lemma OneTwinIsLow(r: nat, s: nat)
    requires 0 < s < SECP256K1_ORDER && FitsSignature(r, s) && FitsSignature(r, SECP256K1_ORDER - s)
    ensures PrintSignature(r, s).Some? && PrintSignature(r, SECP256K1_ORDER - s).Some?
    ensures IsLowS(PrintSignature(r, s).value) == Ok(true) <==> IsLowS(PrintSignature(r, SECP256K1_ORDER - s).value) == Ok(false)
  {
    hide *;
    LowTestDecides(r, s);
    LowTestDecides(r, SECP256K1_ORDER - s);
    OrderIsOdd();
  }

  // ----- What the parser accepts

  /** The octets are a length, in the short or in the long form; the long form need not be the shortest. */
  predicate LengthForm(octets: Bytes, length: nat) {
    if |octets| == 1 then octets[0] < 0x80 && length == octets[0] as nat
    else |octets| > 1 && octets[0] as nat == 0x80 + |octets| - 1 && length == FromBytes(octets[1..])
  }

  /** The octets from one offset to another are one tagged integer of this value. */
  ghost predicate IntegerForm(data: Bytes, begin: nat, end: nat, value: nat) {
    exists middle: nat {:trigger LengthForm(data[begin + 1..middle], end - middle)} ::
      && begin + 1 < middle <= end <= |data| && data[begin] == 0x02
      && LengthForm(data[begin + 1..middle], end - middle) && value == FromBytes(data[middle..end])
  }

  /** A sequence of exactly two tagged integers, and nothing behind it. */
  ghost predicate SignatureForm(data: Bytes, r: nat, s: nat) {
    && |data| >= 8 && data[0] == 0x30
    && exists body: nat, second: nat {:trigger IntegerForm(data, body, second, r)} ::
         && 1 < body <= |data| && LengthForm(data[1..body], |data| - body)
         && IntegerForm(data, body, second, r) && IntegerForm(data, second, |data|, s)
  }

  lemma ReadLengthForm(data: Bytes, offset: nat)
    ensures ReadLength(data, offset).Ok? ==>
              var (length, end) := ReadLength(data, offset).value;
              offset < end <= |data| && LengthForm(data[offset..end], length)
  {
    if offset < |data| && data[offset] >= 0x80 && ReadLength(data, offset).Ok? {
      var end := ReadLength(data, offset).value.1;
      assert data[offset..end][1..] == data[offset + 1..end];
    }
  }

  lemma LengthFormReads(data: Bytes, offset: nat, end: nat, length: nat)
    requires offset < end <= |data| && LengthForm(data[offset..end], length)
    ensures ReadLength(data, offset) == Ok((length, end))
  {
    assert data[offset..end][0] == data[offset];
    if end - offset > 1 {
      assert data[offset..end][1..] == data[offset + 1..end];
    }
  }

  lemma ReadHasForm(data: Bytes, offset: nat, end: nat, value: nat)
    requires end <= |data| && ReadInteger(data, offset) == Ok((value, end))
    ensures IntegerForm(data, offset, end, value)
  {
    hide FromBytes, LengthForm, ReadLength;
    ReadLengthForm(data, offset + 1);
    var (length, middle) := ReadLength(data, offset + 1).value;
    assert LengthForm(data[offset + 1..middle], end - middle);
    assert Slice(data, middle, length) == data[middle..end];
  }

  lemma FormIsRead(data: Bytes, offset: nat, end: nat, value: nat)
    requires IntegerForm(data, offset, end, value)
    ensures ReadInteger(data, offset) == Ok((value, end))
  {
    hide FromBytes, LengthForm, ReadLength;
    var middle: nat :| offset + 1 < middle <= end && data[offset] == 0x02 &&
                       LengthForm(data[offset + 1..middle], end - middle) && value == FromBytes(data[middle..end]);
    LengthFormReads(data, offset + 1, middle, end - middle);
    assert Slice(data, middle, end - middle) == data[middle..end];
  }

  lemma ParsedHasForm(data: Bytes, r: nat, s: nat)
    requires ParseSignature(data) == Ok((r, s))
    ensures SignatureForm(data, r, s)
  {
    hide FromBytes, IntegerForm, LengthForm, ReadInteger, ReadLength;
    ReadLengthForm(data, 1);
    var body := ReadLength(data, 1).value.1;
    var second := ReadInteger(data, body).value.1;
    SecondWithin(data, second);
    ReadHasForm(data, body, second, r);
    ReadHasForm(data, second, |data|, s);
  }

  lemma SecondWithin(data: Bytes, second: nat)
    requires ReadInteger(data, second).Ok?
    ensures second < |data|
  {
  }

  lemma FormIsParsed(data: Bytes, r: nat, s: nat)
    requires SignatureForm(data, r, s)
    ensures ParseSignature(data) == Ok((r, s))
  {
    hide FromBytes, IntegerForm, LengthForm, ReadInteger, ReadLength;
    var body: nat, second: nat :| 1 < body <= |data| && LengthForm(data[1..body], |data| - body) &&
                                  IntegerForm(data, body, second, r) && IntegerForm(data, second, |data|, s);
    LengthFormReads(data, 1, body, |data| - body);
    FormIsRead(data, body, second, r);
    FormIsRead(data, second, |data|, s);
  }

  /** The parser accepts exactly the sequences of two tagged integers that fill the data, and reads their values. */
  lemma ParserAcceptsForm(data: Bytes, r: nat, s: nat)
    ensures ParseSignature(data) == Ok((r, s)) <==> SignatureForm(data, r, s)
  {
    if ParseSignature(data) == Ok((r, s)) {
      ParsedHasForm(data, r, s);
    }
    if SignatureForm(data, r, s) {
      FormIsParsed(data, r, s);
    }
  }

  /** Whatever form its lengths take, a signature passes the low-s test exactly by its s. */
  lemma LowTestOfForm(data: Bytes, r: nat, s: nat)
    requires SignatureForm(data, r, s)
    ensures IsLowS(data) == Ok(0 < s && 2 * s < SECP256K1_ORDER)
  {
    hide ParseSignature, SignatureForm;
    ParserAcceptsForm(data, r, s);
    OrderIsOdd();
  }

  /** On data of any other form the test gives no answer. */
  lemma LowTestNeedsForm(data: Bytes)
    ensures IsLowS(data).Ok? <==> exists r, s :: SignatureForm(data, r, s)
  {
    hide ParseSignature, SignatureForm;
    if IsLowS(data).Ok? {
      var (r, s) := ParseSignature(data).value;
      ParserAcceptsForm(data, r, s);
    }
    if r, s :| SignatureForm(data, r, s) {
      ParserAcceptsForm(data, r, s);
    }
  }

  /** Outside 0 < s < order, normalising gives s = 0 or is refused for its negative difference. */
  lemma NormalizeOutside(r: nat, s: nat)
    requires FitsSignature(r, s) && (s == 0 || s >= SECP256K1_ORDER)
    ensures PrintSignature(r, s).Some?
    ensures var normal := NormalizeLowS(PrintSignature(r, s).value);
            if s > SECP256K1_ORDER then normal == Err(NegativeInteger)
            else normal.Ok? && ParseSignature(normal.value) == Ok((r, 0))
  {
    hide FitsSignature, ParseSignature, PrintSignature;
    ParsePrinted(r, s);
    if s <= SECP256K1_ORDER {
      SmallerFits(r, 0, s);
      ParsePrinted(r, 0);
    }
  }
}
