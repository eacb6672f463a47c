/**
 The transaction and block format of BIP 144, sections "Serialization" and "Hashes":
 the legacy form, the form with marker, flag and witnesses, and a block as an 80-byte
 header and a counted list of transactions.
 */
module Transactions {
  import opened Bytes
  import opened Wrappers
  import opened Codecs

  datatype Input = Input(prevTxid: bytes, prevVout: nat, scriptSig: bytes, sequence: nat)

  datatype Output = Output(value: nat, scriptPubkey: bytes)

  type Witness = seq<bytes>

  /** witnesses[i] belongs to inputs[i]. */
  datatype Transaction = Transaction(
    version: nat,
    inputs: seq<Input>,
    outputs: seq<Output>,
    witnesses: seq<Witness>,
    lockTime: nat)

  datatype Block = Block(header: bytes, transactions: seq<Transaction>)

  /** A witness anywhere, or no input at all, calls for the form with marker and flag. */
  predicate UsesSegwit(tx: Transaction) {
    tx.inputs == [] || exists i :: 0 <= i < |tx.witnesses| && tx.witnesses[i] != []
  }

  function NoWitnesses(n: nat): (w: seq<Witness>)
    ensures |w| == n
  {
    seq(n, _ => [])
  }

  /**
   The formats of a transaction's parts, and how the two forms are laid out from them. The
   laws of the whole need only the laws of the parts and what an empty input list prints as.
   */
  datatype Layout = Layout(
    version: Codec<nat>,
    inputs: Codec<seq<Input>>,
    outputs: Codec<seq<Output>>,
    stack: Codec<Witness>)
  {
    ghost predicate Sound() {
      && Lawful(version) && Lawful(inputs) && Lawful(outputs) && Lawful(stack)
      && inputs.encode([]) == [0] && inputs.fits([]) && stack.fits([])
    }

    predicate Fits(tx: Transaction) {
      && version.fits(tx.version) && inputs.fits(tx.inputs) && outputs.fits(tx.outputs)
      && version.fits(tx.lockTime)
      && |tx.witnesses| == |tx.inputs| && AllFit(stack, tx.witnesses)
    }

    function PrintLegacy(tx: Transaction): bytes {
      version.encode(tx.version) + inputs.encode(tx.inputs) + outputs.encode(tx.outputs) + version.encode(tx.lockTime)
    }

    function PrintSegwit(tx: Transaction): bytes {
      version.encode(tx.version) + [0, 1] + inputs.encode(tx.inputs) + outputs.encode(tx.outputs)
      + PrintMany(stack, tx.witnesses) + version.encode(tx.lockTime)
    }

    function Print(tx: Transaction): bytes {
      if UsesSegwit(tx) then PrintSegwit(tx) else PrintLegacy(tx)
    }

    function Parse(s: bytes): Option<(Transaction, bytes)> {
      match version.decode(s)
      case None => None
      case Some((v, r)) =>
        match inputs.decode(r)
        case None => None
        case Some((ins, r2)) => if ins == [] then ParseSegwit(v, r2) else ParseLegacy(v, ins, r2)
    }

    function ParseLegacy(v: nat, ins: seq<Input>, r: bytes): Option<(Transaction, bytes)> {
      match outputs.decode(r)
      case None => None
      case Some((outs, r2)) =>
        match version.decode(r2)
        case None => None
        case Some((lock, rest)) => Some((Transaction(v, ins, outs, NoWitnesses(|ins|), lock), rest))
    }

    /** After the zero marker: the flag must be 1, and inputs without any witness are refused. */
    function ParseSegwit(v: nat, r: bytes): Option<(Transaction, bytes)> {
      if r == [] || r[0] != 1 then None
      else match inputs.decode(r[1..])
        case None => None
        case Some((ins, r2)) => ParseSegwitTail(v, ins, r2)
    }

    function ParseSegwitTail(v: nat, ins: seq<Input>, r: bytes): Option<(Transaction, bytes)> {
      match outputs.decode(r)
      case None => None
      case Some((outs, r2)) =>
        match ParseMany(stack, |ins|, r2)
        case None => None
        case Some((ws, r3)) =>
          match version.decode(r3)
          case None => None
          case Some((lock, rest)) =>
            var tx := Transaction(v, ins, outs, ws, lock);
            if UsesSegwit(tx) then Some((tx, rest)) else None
    }

    lemma LegacyParses(tx: Transaction, rest: bytes)
      requires Sound() && Fits(tx) && tx.inputs != []
      ensures Parse(PrintLegacy(tx) + rest) == Some((tx.(witnesses := NoWitnesses(|tx.inputs|)), rest))
    {
      var r3 := version.encode(tx.lockTime) + rest;
      var r2 := outputs.encode(tx.outputs) + r3;
      var r1 := inputs.encode(tx.inputs) + r2;
      assert PrintLegacy(tx) + rest == version.encode(tx.version) + r1;
      assert version.decode(version.encode(tx.version) + r1) == Some((tx.version, r1));
      assert inputs.decode(inputs.encode(tx.inputs) + r2) == Some((tx.inputs, r2));
      assert outputs.decode(outputs.encode(tx.outputs) + r3) == Some((tx.outputs, r3));
      assert version.decode(version.encode(tx.lockTime) + rest) == Some((tx.lockTime, rest));
    }

    lemma LegacyParsesWhole(tx: Transaction)
      requires Sound() && Fits(tx) && tx.inputs != []
      ensures ParseAll(Codec(Print, Parse, Fits), PrintLegacy(tx)) == Some(tx.(witnesses := NoWitnesses(|tx.inputs|)))
    {
      LegacyParses(tx, []);
      assert PrintLegacy(tx) + [] == PrintLegacy(tx);
    }

    lemma SegwitTailParses(tx: Transaction, rest: bytes)
      requires Sound() && Fits(tx) && UsesSegwit(tx)
      ensures ParseSegwitTail(tx.version, tx.inputs,
                outputs.encode(tx.outputs) + (PrintMany(stack, tx.witnesses) + (version.encode(tx.lockTime) + rest)))
              == Some((tx, rest))
    {
      var r3 := version.encode(tx.lockTime) + rest;
      var r2 := PrintMany(stack, tx.witnesses) + r3;
      assert outputs.decode(outputs.encode(tx.outputs) + r2) == Some((tx.outputs, r2));
      ManyParsesPrinted(stack, tx.witnesses, r3);
      assert version.decode(version.encode(tx.lockTime) + rest) == Some((tx.lockTime, rest));
    }

    lemma SegwitParses(tx: Transaction, rest: bytes)
      requires Sound() && Fits(tx) && UsesSegwit(tx)
      ensures Parse(PrintSegwit(tx) + rest) == Some((tx, rest))
    {
      var r2 := outputs.encode(tx.outputs) + (PrintMany(stack, tx.witnesses) + (version.encode(tx.lockTime) + rest));
      var r1 := [1] + (inputs.encode(tx.inputs) + r2);
      assert PrintSegwit(tx) + rest == version.encode(tx.version) + (inputs.encode([]) + r1);
      assert version.decode(version.encode(tx.version) + (inputs.encode([]) + r1))
          == Some((tx.version, inputs.encode([]) + r1));
      assert inputs.decode(inputs.encode([]) + r1) == Some(([], r1));
      assert r1[1..] == inputs.encode(tx.inputs) + r2;
      assert inputs.decode(inputs.encode(tx.inputs) + r2) == Some((tx.inputs, r2));
      SegwitTailParses(tx, rest);
    }

    lemma ParsedLegacyPrints(v: nat, ins: seq<Input>, r: bytes)
      requires Sound() && version.fits(v) && inputs.fits(ins) && ins != [] && ParseLegacy(v, ins, r).Some?
      ensures var (tx, rest) := ParseLegacy(v, ins, r).value;
              Fits(tx) && !UsesSegwit(tx)
              && version.encode(v) + (inputs.encode(ins) + r) == PrintLegacy(tx) + rest
    {
      var (outs, r2) := outputs.decode(r).value;
      var (lock, rest) := version.decode(r2).value;
      assert r == outputs.encode(outs) + (version.encode(lock) + rest);
    }

    lemma ParsedSegwitTailPrints(v: nat, ins: seq<Input>, r: bytes)
      requires Sound() && version.fits(v) && inputs.fits(ins) && ParseSegwitTail(v, ins, r).Some?
      ensures var (tx, rest) := ParseSegwitTail(v, ins, r).value;
              && Fits(tx) && UsesSegwit(tx) && tx.version == v && tx.inputs == ins
              && r == outputs.encode(tx.outputs)
                      + (PrintMany(stack, tx.witnesses) + (version.encode(tx.lockTime) + rest))
    {
      var (outs, r2) := outputs.decode(r).value;
      ManyPrintsParsed(stack, |ins|, r2);
    }

    lemma ParsedSegwitPrints(v: nat, r: bytes)
      requires Sound() && version.fits(v) && ParseSegwit(v, r).Some?
      ensures var (tx, rest) := ParseSegwit(v, r).value;
              Fits(tx) && UsesSegwit(tx) && version.encode(v) + ([0] + r) == PrintSegwit(tx) + rest
    {
      var (ins, r1) := inputs.decode(r[1..]).value;
      ParsedSegwitTailPrints(v, ins, r1);
      var (tx, rest) := ParseSegwitTail(v, ins, r1).value;
      assert r == [1] + r[1..];
      SegwitConcat(version.encode(v), inputs.encode(ins), outputs.encode(tx.outputs),
                   PrintMany(stack, tx.witnesses), version.encode(tx.lockTime), rest);
    }

    static lemma SegwitConcat(v: bytes, ins: bytes, outs: bytes, ws: bytes, lock: bytes, rest: bytes)
      ensures v + ([0] + ([1] + (ins + (outs + (ws + (lock + rest))))))
           == v + [0, 1] + ins + outs + ws + lock + rest
    {
    }

    lemma ParsedPrints(s: bytes)
      requires Sound() && Parse(s).Some?
      ensures var (tx, rest) := Parse(s).value;
              && Fits(tx) && s == Print(tx) + rest
              && (UsesSegwit(tx) ==> |version.encode(tx.version)| < |s| && s[|version.encode(tx.version)|] == 0)
    {
      var (v, r) := version.decode(s).value;
      var (ins, r2) := inputs.decode(r).value;
      if ins == [] {
        ParsedSegwitPrints(v, r2);
      } else {
        ParsedLegacyPrints(v, ins, r2);
      }
    }

    /** Printing and parsing a transaction undo each other, in both directions. */
    lemma CodecLawful()
      requires Sound()
      ensures Lawful(Codec(Print, Parse, Fits))
    {
      var c := Codec(Print, Parse, Fits);
      forall tx: Transaction, rest: bytes | c.fits(tx) ensures c.decode(c.encode(tx) + rest) == Some((tx, rest)) {
        if UsesSegwit(tx) {
          SegwitParses(tx, rest);
        } else {
          LegacyParses(tx, rest);
          assert tx.witnesses == NoWitnesses(|tx.inputs|);
        }
      }
      forall s: bytes | c.decode(s).Some?
        ensures c.fits(c.decode(s).value.0) && s == c.encode(c.decode(s).value.0) + c.decode(s).value.1
      {
        ParsedPrints(s);
      }
    }
  }

  const INPUT_CODEC: Codec<Input> :=
    Iso(Pair(Fixed(32), Pair(Uint(4), Pair(VAR_BYTES, Uint(4)))),
        (p: (bytes, (nat, (bytes, nat)))) => Input(p.0, p.1.0, p.1.1.0, p.1.1.1),
        (i: Input) => (i.prevTxid, (i.prevVout, (i.scriptSig, i.sequence))))

  const OUTPUT_CODEC: Codec<Output> :=
    Iso(Pair(Uint(8), VAR_BYTES),
        (p: (nat, bytes)) => Output(p.0, p.1),
        (o: Output) => (o.value, o.scriptPubkey))

  const BIP144: Layout := Layout(Uint(4), Counted(INPUT_CODEC), Counted(OUTPUT_CODEC), Counted(VAR_BYTES))

  lemma InputLawful()
    ensures Lawful(INPUT_CODEC)
  {
    FixedLawful(32);
    UintLawful(4);
    VarBytesLawful();
    PairLawful(VAR_BYTES, Uint(4));
    PairLawful(Uint(4), Pair(VAR_BYTES, Uint(4)));
    PairLawful(Fixed(32), Pair(Uint(4), Pair(VAR_BYTES, Uint(4))));
    IsoLawful(Pair(Fixed(32), Pair(Uint(4), Pair(VAR_BYTES, Uint(4)))),
              (p: (bytes, (nat, (bytes, nat)))) => Input(p.0, p.1.0, p.1.1.0, p.1.1.1),
              (i: Input) => (i.prevTxid, (i.prevVout, (i.scriptSig, i.sequence))));
  }

  lemma OutputLawful()
    ensures Lawful(OUTPUT_CODEC)
  {
    UintLawful(8);
    VarBytesLawful();
    PairLawful(Uint(8), VAR_BYTES);
    IsoLawful(Pair(Uint(8), VAR_BYTES),
              (p: (nat, bytes)) => Output(p.0, p.1),
              (o: Output) => (o.value, o.scriptPubkey));
  }

  lemma Bip144Sound()
    ensures BIP144.Sound()
  {
    InputLawful();
    OutputLawful();
    UintLawful(4);
    VarBytesLawful();
    CountedLawful(INPUT_CODEC);
    CountedLawful(OUTPUT_CODEC);
    CountedLawful(VAR_BYTES);
    assert PrintCompactSize(0) + [] == [0];
  }

  /** `serialize_no_witness`. Its double hash is the txid. */
  function PrintLegacy(tx: Transaction): bytes {
    BIP144.PrintLegacy(tx)
  }

  const TX_CODEC: Codec<Transaction> := Codec(BIP144.Print, BIP144.Parse, BIP144.Fits)

  lemma TxLawful()
    ensures Lawful(TX_CODEC)
  {
    Bip144Sound();
    BIP144.CodecLawful();
  }

  const BLOCK_CODEC: Codec<Block> :=
    Iso(Pair(Fixed(80), Counted(TX_CODEC)),
        (p: (bytes, seq<Transaction>)) => Block(p.0, p.1),
        (b: Block) => (b.header, b.transactions))

  lemma BlockLawful()
    ensures Lawful(BLOCK_CODEC)
  {
    TxLawful();
    FixedLawful(80);
    CountedLawful(TX_CODEC);
    PairLawful(Fixed(80), Counted(TX_CODEC));
    IsoLawful(Pair(Fixed(80), Counted(TX_CODEC)),
              (p: (bytes, seq<Transaction>)) => Block(p.0, p.1),
              (b: Block) => (b.header, b.transactions));
  }

  /** The fifth byte counts the inputs of a legacy form; zero is the marker of the other form. */
  predicate LooksLegacy(s: bytes) {
    |s| >= 5 && s[4] != 0
  }

  /** Bytes that look legacy and parse are exactly the hashed form of what they parse to. */
  lemma LegacyBytesAreHashed(s: bytes)
    requires LooksLegacy(s) && ParseAll(TX_CODEC, s).Some?
    ensures var tx := ParseAll(TX_CODEC, s).value;
            BIP144.Fits(tx) && tx.inputs != [] && !UsesSegwit(tx) && PrintLegacy(tx) == s
  {
    Bip144Sound();
    BIP144.ParsedPrints(s);
    var tx := ParseAll(TX_CODEC, s).value;
    assert BIP144.Print(tx) + [] == BIP144.Print(tx);
  }
}
