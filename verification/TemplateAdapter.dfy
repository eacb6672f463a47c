/**
 The second template parser, with its own looped hexadecimal decoder, and the bridge that
 runs both parsers on one template.
 */
module TemplateAdapter {
  import opened Bytes
  import opened Wrappers
  import opened Hex
  import opened Coinbase
  import opened Jobs
  import opened TemplateMapper

  datatype AdapterError =
    | MissingRequiredField(name: string)
    | HexDecodeFailure(field: string, message: string)
    | InvalidNumericConversion(field: string)

  datatype JobTemplate = JobTemplate(
    jobId: string,
    prevHash: bytes,
    version: bv32,
    nbits: u32,
    ntime: u32,
    height: u32,
    coinbaseValue: u64)

  /** `decode_hex`: trims, then reads two digits at a time. It decodes what the library decoder decodes. */
  method DecodeHex(text: string, field: string) returns (r: Result<bytes, AdapterError>)
    ensures r.Ok? <==> HexDecode(Trim(text)).Some?
    ensures r.Ok? ==> r.value == HexDecode(Trim(text)).value
    ensures r.Err? ==> r.error.HexDecodeFailure? && r.error.field == field
  {
    var hex := Trim(text);
    HexDecodable(hex);
    if |hex| % 2 != 0 {
      return Err(HexDecodeFailure(field, "odd-length hex string"));
    }
    var out: bytes := [];
    var i := 0;
    while i < |hex|
      invariant 0 <= i <= |hex| && i % 2 == 0
      invariant HexDecode(hex[..i]) == Some(out)
    {
      var hi := Nibble(hex[i]);
      if hi.None? {
        return Err(HexDecodeFailure(field, "invalid hex"));
      }
      var lo := Nibble(hex[i + 1]);
      if lo.None? {
        return Err(HexDecodeFailure(field, "invalid hex"));
      }
      var value := FromNibbles(hi.value, lo.value);
      DecodeTwoMore(hex, i, out);
      out := out + [value];
      i := i + 2;
    }
    assert hex[..i] == hex;
    return Ok(out);
  }

  lemma DecodeTwoMore(hex: string, i: nat, out: bytes)
    requires i % 2 == 0 && i + 2 <= |hex| && HexDecode(hex[..i]) == Some(out)
    requires Nibble(hex[i]).Some? && Nibble(hex[i + 1]).Some?
    ensures HexDecode(hex[..i + 2]) == Some(out + [FromNibbles(Nibble(hex[i]).value, Nibble(hex[i + 1]).value)])
  {
    DecodePair(hex[i], hex[i + 1]);
    HexDecodeConcat(hex[..i], [hex[i], hex[i + 1]]);
    assert hex[..i + 2] == hex[..i] + [hex[i], hex[i + 1]];
  }

  lemma DecodePair(a: char, b: char)
    requires Nibble(a).Some? && Nibble(b).Some?
    ensures HexDecode([a, b]) == Some([FromNibbles(Nibble(a).value, Nibble(b).value)])
  {
    assert [a, b][2..] == [];
    assert [FromNibbles(Nibble(a).value, Nibble(b).value)] + [] == [FromNibbles(Nibble(a).value, Nibble(b).value)];
  }

  /** The decoder gives back every byte string from its encoding. */
  lemma DecoderInvertsEncoder(b: bytes)
    ensures HexDecode(Trim(HexEncode(b))) == Some(b)
  {
    HexRoundTrip(b);
    TrimKeepsHex(HexEncode(b));
  }

  function AdapterPrevHash(hex: string): Result<bytes, AdapterError> {
    if Trim(hex) == "" then Err(MissingRequiredField("previousblockhash"))
    else match HexDecode(Trim(hex))
      case None => Err(HexDecodeFailure("previousblockhash", "hex"))
      case Some(b) =>
        if |b| != 32 then Err(HexDecodeFailure("previousblockhash", "length")) else Ok(Reverse(b))
  }

  function AdapterBits(hex: string): Result<u32, AdapterError> {
    if Trim(hex) == "" then Err(MissingRequiredField("bits"))
    else match HexDecode(Trim(hex))
      case None => Err(HexDecodeFailure("bits", "hex"))
      case Some(b) =>
        if |b| != 4 then Err(InvalidNumericConversion("bits"))
        else
          BeBound(b);
          Pow256Values();
          Ok(Be(b))
  }

  /** `from_block_template`: times and heights that do not fit 32 bits are errors here. */
  function FromBlockTemplate(t: BlockTemplate): Result<JobTemplate, AdapterError> {
    match AdapterPrevHash(t.previousblockhash)
    case Err(e) => Err(e)
    case Ok(prevHash) =>
      match AdapterBits(t.bits)
      case Err(e) => Err(e)
      case Ok(nbits) =>
        if t.curtime >= 0x1_0000_0000 then Err(InvalidNumericConversion("curtime"))
        else if t.height >= 0x1_0000_0000 then Err(InvalidNumericConversion("height"))
        else Ok(JobTemplate(Decimal(t.height) + ":" + t.previousblockhash + ":" + Decimal(t.curtime),
                            prevHash, t.version, nbits, t.curtime, t.height, t.coinbasevalue))
  }

  /** Whenever both parsers accept a template they read the same previous hash, target, time, version and height. */
  lemma ParsersAgree(t: BlockTemplate, payout: bytes, a: JobTemplate, b: Job)
    requires FromBlockTemplate(t) == Ok(a) && TemplateToJob(t, payout) == Ok(b)
    ensures SameReading(a, b)
  {
    JobFromTemplate(t, payout, b);
    DecodersAgree(t, a, DecodeTemplate(t), b);
  }

  /** What the second parser accepts, and what it reads. */
  lemma AdapterExactly(t: BlockTemplate)
    ensures FromBlockTemplate(t).Ok? <==>
              && HexDecode(Trim(t.previousblockhash)).Some? && |HexDecode(Trim(t.previousblockhash)).value| == 32
              && HexDecode(Trim(t.bits)).Some? && |HexDecode(Trim(t.bits)).value| == 4
              && t.curtime < 0x1_0000_0000 && t.height < 0x1_0000_0000
    ensures FromBlockTemplate(t).Ok? ==>
              var a := FromBlockTemplate(t).value;
              && HexDecode(Trim(t.previousblockhash)) == Some(Reverse(a.prevHash))
              && HexDecode(Trim(t.bits)) == Some(BeBytes(a.nbits, 4))
              && a.version == t.version && a.ntime == t.curtime && a.height == t.height
              && a.coinbaseValue == t.coinbasevalue
              && a.jobId == Decimal(t.height) + ":" + t.previousblockhash + ":" + Decimal(t.curtime)
  {
    if FromBlockTemplate(t).Ok? {
      ReverseInvolutive(HexDecode(Trim(t.previousblockhash)).value);
      BeRoundTrip(HexDecode(Trim(t.bits)).value);
    }
  }

  predicate SameReading(a: JobTemplate, b: Job) {
    && a.prevHash == b.prevHash && a.nbits == b.nbits && a.ntime == b.ntime
    && a.version == b.version && a.height == b.Height()
  }

  lemma DecodersAgree(t: BlockTemplate, a: JobTemplate, d: Result<Decoded, PoolError>, b: Job)
    requires FromBlockTemplate(t) == Ok(a) && d == DecodeTemplate(t) && d.Ok?
    requires b == AssembleJob(t, d.value, b.coinbasePart1, b.coinbasePart2)
    ensures SameReading(a, b)
  {
    TrimKeepsHex(t.previousblockhash);
    TrimKeepsHex(t.bits);
  }

  /**
   The two parsers accept the same previous hashes and bits up to surrounding whitespace: the
   strict one accepts a text exactly when the trimming one does and there was nothing to trim.
   */
  lemma AcceptanceDiffersByWhitespace(hex: string)
    ensures DecodePrevHash(hex).Ok? <==> AdapterPrevHash(hex).Ok? && Trim(hex) == hex
    ensures DecodeBits(hex).Ok? <==> AdapterBits(hex).Ok? && Trim(hex) == hex
  {
    if HexDecode(hex).Some? {
      TrimKeepsHex(hex);
    }
  }
}
