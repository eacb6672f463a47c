/** The raw block handed to submitblock: header, transaction count, coinbase, template transactions. */
module RawBlock {
  import opened Bytes
  import opened Wrappers
  import opened Codecs
  import opened Transactions
  import opened Coinbase

  /** `validate_transaction_bytes`: the bytes are one transaction and nothing more. */
  predicate ValidTx(s: bytes) {
    ParseAll(TX_CODEC, s).Some?
  }

  predicate AllValid(txs: seq<bytes>) {
    AllParse(TX_CODEC, txs)
  }

  predicate AllParse(c: Codec<Transaction>, txs: seq<bytes>) {
    forall k :: 0 <= k < |txs| ==> ParseAll(c, txs[k]).Some?
  }

  function Flatten(txs: seq<bytes>): bytes {
    if txs == [] then [] else txs[0] + Flatten(txs[1..])
  }

  function RawBytes(header: bytes, coinbase: bytes, txs: seq<bytes>): bytes {
    header + PrintCompactSize(1 + |txs|) + coinbase + Flatten(txs)
  }

  /** What the block is built from: an 80-byte header, valid transactions, and a count that fits a machine word. */
  predicate Buildable(header: bytes, coinbase: bytes, txs: seq<bytes>) {
    |header| == 80 && ValidTx(coinbase) && AllValid(txs) && 1 + |txs| < COMPACT_LIMIT
  }

  /** The checks of `build_raw_block`, in order. */
  method CheckParts(header: bytes, coinbase: bytes, txs: seq<bytes>) returns (error: Option<PoolError>)
    ensures error.None? <==> Buildable(header, coinbase, txs)
    ensures error.Some? ==> error.value.Internal?
  {
    if |header| != 80 {
      return Some(Internal("block header length != 80"));
    }
    if !ValidTx(coinbase) {
      return Some(Internal("invalid coinbase bytes"));
    }
    var valid := ValidateTransactions(TX_CODEC, txs);
    if !valid {
      return Some(Internal("invalid template transaction bytes"));
    }
    if 1 + |txs| >= COMPACT_LIMIT {
      return Some(Internal("block transaction count overflow"));
    }
    return None;
  }

  /** `build_raw_block`. */
  method BuildRawBlock(header: bytes, coinbase: bytes, txs: seq<bytes>) returns (r: Result<bytes, PoolError>)
    ensures r.Ok? <==> Buildable(header, coinbase, txs)
    ensures r.Ok? ==> r.value == RawBytes(header, coinbase, txs)
    ensures r.Err? ==> r.error.Internal?
  {
    var error := CheckParts(header, coinbase, txs);
    if error.Some? {
      return Err(error.value);
    }
    var rawBlock := header;
    rawBlock := rawBlock + PrintCompactSize(1 + |txs|);
    rawBlock := rawBlock + coinbase;
    rawBlock := AppendTransactions(rawBlock, txs);
    return Ok(rawBlock);
  }

  /** The validating loop of `build_raw_block`: it stops at the first transaction that does not parse. */
  method ValidateTransactions(c: Codec<Transaction>, txs: seq<bytes>) returns (valid: bool)
    ensures valid <==> AllParse(c, txs)
  {
    for k := 0 to |txs|
      invariant AllParse(c, txs[..k])
    {
      if ParseAll(c, txs[k]).None? {
        return false;
      }
      assert txs[..k + 1] == txs[..k] + [txs[k]];
    }
    assert txs[..|txs|] == txs;
    return true;
  }

  /** The appending loop of `build_raw_block`. */
  method AppendTransactions(start: bytes, txs: seq<bytes>) returns (rawBlock: bytes)
    ensures rawBlock == start + Flatten(txs)
  {
    rawBlock := start;
    for k := 0 to |txs|
      invariant rawBlock + Flatten(txs[k..]) == start + Flatten(txs)
    {
      assert txs[k..][1..] == txs[k + 1..];
      ghost var before := rawBlock;
      rawBlock := rawBlock + txs[k];
      assert before + (txs[k] + Flatten(txs[k + 1..])) == rawBlock + Flatten(txs[k + 1..]);
    }
    assert rawBlock + [] == rawBlock;
  }

  function ParsedWith(c: Codec<Transaction>, txs: seq<bytes>): (r: seq<Transaction>)
    requires AllParse(c, txs)
    ensures |r| == |txs|
  {
    if txs == [] then []
    else
      assert forall k :: 0 <= k < |txs[1..]| ==> txs[1..][k] == txs[k + 1];
      [ParseAll(c, txs[0]).value] + ParsedWith(c, txs[1..])
  }

  lemma {:induction false} FlattenPrints(c: Codec<Transaction>, txs: seq<bytes>, parsed: seq<Transaction>)
    requires Lawful(c) && |parsed| == |txs|
    requires forall k :: 0 <= k < |txs| ==> ParseAll(c, txs[k]) == Some(parsed[k])
    ensures Flatten(txs) == PrintMany(c, parsed)
    ensures AllFit(c, parsed)
    ensures forall k :: 0 <= k < |txs| ==> c.encode(parsed[k]) == txs[k]
  {
    forall k | 0 <= k < |txs| ensures c.fits(parsed[k]) && c.encode(parsed[k]) == txs[k] {
      assert ParseAll(c, txs[k]) == Some(parsed[k]);
      PrintOfParseAll(c, txs[k]);
    }
    if txs != [] {
      FlattenPrints(c, txs[1..], parsed[1..]);
      assert c.encode(parsed[0]) == txs[0];
    }
  }

  lemma {:induction false} ParsedAt(c: Codec<Transaction>, txs: seq<bytes>, k: nat)
    requires AllParse(c, txs) && k < |txs|
    ensures ParseAll(c, txs[k]) == Some(ParsedWith(c, txs)[k])
  {
    if k > 0 {
      assert forall j :: 0 <= j < |txs[1..]| ==> txs[1..][j] == txs[j + 1];
      ParsedAt(c, txs[1..], k - 1);
    }
  }

  /** The transactions a built block parses to, coinbase first. */
  function BlockTxs(coinbase: bytes, txs: seq<bytes>): (r: seq<Transaction>)
    requires ValidTx(coinbase) && AllValid(txs)
    ensures |r| == 1 + |txs|
  {
    [ParseAll(TX_CODEC, coinbase).value] + ParsedWith(TX_CODEC, txs)
  }

  lemma BlockTxsPrint(coinbase: bytes, txs: seq<bytes>)
    requires ValidTx(coinbase) && AllValid(txs)
    ensures coinbase + Flatten(txs) == PrintMany(TX_CODEC, BlockTxs(coinbase, txs))
    ensures AllFit(TX_CODEC, BlockTxs(coinbase, txs))
    ensures TX_CODEC.encode(BlockTxs(coinbase, txs)[0]) == coinbase
    ensures forall k :: 0 <= k < |txs| ==> TX_CODEC.encode(BlockTxs(coinbase, txs)[k + 1]) == txs[k]
  {
    TxLawful();
    ConsPrints(TX_CODEC, coinbase, ParseAll(TX_CODEC, coinbase).value, txs);
  }

  lemma ConsPrints(c: Codec<Transaction>, coinbase: bytes, first: Transaction, txs: seq<bytes>)
    requires Lawful(c) && AllParse(c, txs) && ParseAll(c, coinbase) == Some(first)
    ensures var all := [first] + ParsedWith(c, txs);
            && coinbase + Flatten(txs) == PrintMany(c, all)
            && AllFit(c, all)
            && c.encode(all[0]) == coinbase
            && forall k :: 0 <= k < |txs| ==> c.encode(all[k + 1]) == txs[k]
  {
    var rest := ParsedWith(c, txs);
    forall k | 0 <= k < |txs| ensures ParseAll(c, txs[k]) == Some(rest[k]) {
      ParsedAt(c, txs, k);
    }
    FlattenPrints(c, txs, rest);
    PrintOfParseAll(c, coinbase);
    assert ([first] + rest)[1..] == rest;
  }

  /**
   Parsing a built block gives back exactly the header and the transactions in order, coinbase
   first, with nothing left over, whatever the width of the count; and each parsed transaction
   prints as the bytes that went in.
   */
  lemma RawBlockInverts(header: bytes, coinbase: bytes, txs: seq<bytes>)
    requires Buildable(header, coinbase, txs)
    ensures ParseAll(BLOCK_CODEC, RawBytes(header, coinbase, txs)) == Some(Block(header, BlockTxs(coinbase, txs)))
    ensures TX_CODEC.encode(BlockTxs(coinbase, txs)[0]) == coinbase
    ensures forall k :: 0 <= k < |txs| ==> TX_CODEC.encode(BlockTxs(coinbase, txs)[k + 1]) == txs[k]
  {
    BlockTxsPrint(coinbase, txs);
    BlockPrints(header, BlockTxs(coinbase, txs));
    RawConcat(header, PrintCompactSize(1 + |txs|), coinbase, Flatten(txs));
  }

  lemma RawConcat(header: bytes, count: bytes, coinbase: bytes, rest: bytes)
    ensures header + count + coinbase + rest == header + (count + (coinbase + rest))
  {
  }

  lemma BlockPrints(header: bytes, parsed: seq<Transaction>)
    requires |header| == 80 && |parsed| < COMPACT_LIMIT && AllFit(TX_CODEC, parsed)
    ensures ParseAll(BLOCK_CODEC, header + (PrintCompactSize(|parsed|) + PrintMany(TX_CODEC, parsed)))
         == Some(Block(header, parsed))
  {
    BlockLawful();
    ParseAllOfPrint(BLOCK_CODEC, Block(header, parsed));
  }
}
