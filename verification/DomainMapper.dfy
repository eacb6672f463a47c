/** From the text fields of a request to a command for the session. */
module DomainMapper {
  import opened Bytes
  import opened Wrappers
  import opened Hex
  import opened VersionRolling

  datatype Submission = Submission(
    username: string,
    jobId: string,
    extraNonce2: bytes,
    ntime: u32,
    nonce: u32,
    versionBits: Option<bv32>)

  datatype Command =
    | Configure(versionRolling: Option<RollingConfig>)
    | Subscribe
    | Authorize(username: string)
    | Submit(submission: Submission)

  /** Which field of a request is missing or malformed; the source formats a sentence. */
  datatype FieldError = FieldError(name: string)

  /** A line from the miner as the session sees it: not JSON, an unknown method, bad fields, or a command. */
  datatype Line = NotJson | UnknownMethod | BadFields(error: FieldError) | Parsed(cmd: Command)

  /** What `map_request_to_command` returned, as a line. */
  function LineOf(parsed: Result<Option<Command>, FieldError>): Line {
    match parsed
    case Ok(Some(cmd)) => Parsed(cmd)
    case Ok(None) => UnknownMethod
    case Err(e) => BadFields(e)
  }

  /** The text fields of mining.submit. */
  datatype SubmitText = SubmitText(
    username: string,
    jobId: string,
    extraNonce2: string,
    ntime: string,
    nonce: string,
    versionBits: Option<string>)

  function MapBits(text: Option<string>): Result<Option<bv32>, FieldError> {
    match text
    case None => Ok(None)
    case Some(s) =>
      match ParseHexU32(s)
      case Some(v) => Ok(Some(v as bv32))
      case None => Err(FieldError("version_bits"))
  }

  /** `map_submit_params`: the first bad field fails the request. */
  function MapSubmit(t: SubmitText): Result<Submission, FieldError> {
    match HexDecode(t.extraNonce2)
    case None => Err(FieldError("extra_nonce2"))
    case Some(extraNonce2) =>
      match ParseHexU32(t.ntime)
      case None => Err(FieldError("ntime"))
      case Some(ntime) =>
        match ParseHexU32(t.nonce)
        case None => Err(FieldError("nonce"))
        case Some(nonce) =>
          match MapBits(t.versionBits)
          case Err(e) => Err(e)
          case Ok(bits) => Ok(Submission(t.username, t.jobId, extraNonce2, ntime, nonce, bits))
  }

  /** `parse_version_rolling_config`: a missing mask asks for every bit, a missing count for none. */
  function MapRolling(mask: Option<string>, minBitCount: Option<nat>): Result<RollingConfig, FieldError> {
    match MapBits(mask)
    case Err(_) => Err(FieldError("version-rolling.mask"))
    case Ok(bits) =>
      var count := if minBitCount.Some? then minBitCount.value else 0;
      if count >= 0x1_0000_0000 then Err(FieldError("version-rolling.min-bit-count"))
      else Ok(RollingConfig(if bits.Some? then bits.value else 0xffff_ffff, count))
  }

  function BitsText(bits: Option<bv32>): Option<string> {
    if bits.Some? then Some(HexU32(bits.value as int)) else None
  }

  /** How a miner prints its share. */
  function SubmitFields(s: Submission): SubmitText {
    SubmitText(s.username, s.jobId, HexEncode(s.extraNonce2), HexU32(s.ntime), HexU32(s.nonce), BitsText(s.versionBits))
  }

  lemma BitsReadBack(bits: Option<bv32>)
    ensures MapBits(BitsText(bits)) == Ok(bits)
  {
    if bits.Some? {
      HexU32RoundTrip(bits.value as int);
      assert (bits.value as int) as bv32 == bits.value;
    }
  }

  /** The pool reads back exactly the share a miner printed. */
  lemma SubmitReadsBack(s: Submission)
    ensures MapSubmit(SubmitFields(s)) == Ok(s)
  {
    HexRoundTrip(s.extraNonce2);
    HexU32RoundTrip(s.ntime);
    HexU32RoundTrip(s.nonce);
    BitsReadBack(s.versionBits);
  }

  /** And the miner's rolling request, so what is negotiated depends on what it asked for. */
  lemma RollingReadsBack(c: RollingConfig)
    ensures MapRolling(BitsText(Some(c.mask)), Some(c.minBitCount)) == Ok(c)
  {
    BitsReadBack(Some(c.mask));
  }

  // What is accepted

  /** An absent mask asks for every bit, an absent count for none; what is there must be a 32-bit number. */
  lemma RollingReadsExactly(mask: Option<string>, minBitCount: Option<nat>)
    ensures MapRolling(mask, minBitCount).Ok? <==>
              && (mask.Some? ==> ParseHexU32(mask.value).Some?)
              && (minBitCount.Some? ==> minBitCount.value < 0x1_0000_0000)
    ensures MapRolling(mask, minBitCount).Ok? ==>
              && MapRolling(mask, minBitCount).value.mask
                 == (if mask.Some? then ParseHexU32(mask.value).value as bv32 else 0xffff_ffff)
              && MapRolling(mask, minBitCount).value.minBitCount
                 == (if minBitCount.Some? then minBitCount.value else 0)
  {
  }

  /** A submit is accepted exactly when each of its fields is a number of its kind, and then carries those numbers. */
  lemma SubmitReadsExactly(t: SubmitText)
    ensures MapSubmit(t).Ok? <==>
              && HexDecode(t.extraNonce2).Some? && ParseHexU32(t.ntime).Some? && ParseHexU32(t.nonce).Some?
              && (t.versionBits.Some? ==> ParseHexU32(t.versionBits.value).Some?)
    ensures MapSubmit(t).Ok? ==>
              var s := MapSubmit(t).value;
              && s.username == t.username && s.jobId == t.jobId
              && HexDecode(t.extraNonce2) == Some(s.extraNonce2)
              && ParseHexU32(t.ntime) == Some(s.ntime) && ParseHexU32(t.nonce) == Some(s.nonce)
              && s.versionBits.Some? == t.versionBits.Some?
              && (t.versionBits.Some? ==> s.versionBits.value == ParseHexU32(t.versionBits.value).value as bv32)
  {
  }
}
