/**
  A nested confirmation review, from the same combinators: what a host is shown before it creates a
  transaction, for a product account or a legacy one.
 */
module ReviewCodec {
  import opened BigEndian
  import opened Optionals
  import opened Utf8
  import opened Wire

  /** `Bytes32` is a synonym of `Data` in the generated code: nothing checks the length. */
  type Bytes32 = Buffer

  datatype DerivationIndex = Index(n: nat) | Raw(bytes: Bytes32)

  datatype ProductAccountId = ProductAccountId(dotNsIdentifier: Text, derivationIndex: DerivationIndex)

  datatype TxPayloadExtension = TxPayloadExtension(id: Text, extra: Buffer, additionalSigned: Buffer)

  /** The fields that both payloads end in. */
  datatype Transaction = Transaction(
    genesisHash: Bytes32, callData: Buffer, extensions: seq<TxPayloadExtension>, txExtVersion: nat)

  datatype CreateTransactionReview =
    | Product(signer: ProductAccountId, transaction: Transaction)
    | LegacyAccount(account: Bytes32, transaction: Transaction)

  const UINT32_CODEC: Codec<nat> := Uint(4)
  const UINT8_CODEC: Codec<nat> := Uint(1)

  function DerivationIndexTag(v: DerivationIndex): (n: nat) { if v.Index? then 1 else 2 }

  const INDEX := View((n: nat) => Index(n), (v: DerivationIndex) => if v.Index? then Some(v.n) else None)
  const RAW := View((b: Bytes32) => Raw(b), (v: DerivationIndex) => if v.Raw? then Some(v.bytes) else None)

  function DerivationIndexCase(tag: nat): (c: Codec<DerivationIndex>) {
    if tag == 1 then Case(UINT32_CODEC, INDEX) else Case(BLOB_CODEC, RAW)
  }

  const DERIVATION_INDEX_CODEC: Codec<DerivationIndex> := Variant(2, DerivationIndexTag, DerivationIndexCase)

  lemma DerivationIndexLawful()
    ensures Lawful(DERIVATION_INDEX_CODEC)
  {
    hide Lawful, LawfulCase;
    UintLawful(4);
    BlobLawful();
    CaseLawful(UINT32_CODEC, INDEX, DerivationIndexTag, 1);
    CaseLawful(BLOB_CODEC, RAW, DerivationIndexTag, 2);
    VariantLawful(2, DerivationIndexTag, DerivationIndexCase);
  }

  type AccountFields = (Text, DerivationIndex)
  const ACCOUNT_FIELDS_CODEC: Codec<AccountFields> := Pair(STRING_CODEC, DERIVATION_INDEX_CODEC)
  const ACCOUNT := View(
    (f: AccountFields) => ProductAccountId(f.0, f.1),
    (v: ProductAccountId) => Some((v.dotNsIdentifier, v.derivationIndex)))
  const PRODUCT_ACCOUNT_ID_CODEC: Codec<ProductAccountId> := Record(ACCOUNT_FIELDS_CODEC, ACCOUNT)

  lemma ProductAccountIdLawful()
    ensures Lawful(PRODUCT_ACCOUNT_ID_CODEC)
  {
    hide Lawful, DERIVATION_INDEX_CODEC;
    StringLawful();
    DerivationIndexLawful();
    PairLawful(STRING_CODEC, DERIVATION_INDEX_CODEC);
    RecordLawful(ACCOUNT_FIELDS_CODEC, ACCOUNT);
  }

  type ExtensionFields = (Text, (Buffer, Buffer))
  const EXTENSION_FIELDS_CODEC: Codec<ExtensionFields> := Pair(STRING_CODEC, Pair(BLOB_CODEC, BLOB_CODEC))
  const EXTENSION := View(
    (f: ExtensionFields) => TxPayloadExtension(f.0, f.1.0, f.1.1),
    (v: TxPayloadExtension) => Some((v.id, (v.extra, v.additionalSigned))))
  const EXTENSION_CODEC: Codec<TxPayloadExtension> := Record(EXTENSION_FIELDS_CODEC, EXTENSION)

  type TransactionFields = ((Bytes32, Buffer), (seq<TxPayloadExtension>, nat))
  const TRANSACTION_FIELDS_CODEC: Codec<TransactionFields> :=
    Pair(Pair(BLOB_CODEC, BLOB_CODEC), Pair(List(EXTENSION_CODEC), UINT8_CODEC))
  const TRANSACTION := View(
    (f: TransactionFields) => Transaction(f.0.0, f.0.1, f.1.0, f.1.1),
    (v: Transaction) => Some(((v.genesisHash, v.callData), (v.extensions, v.txExtVersion))))
  const TRANSACTION_CODEC: Codec<Transaction> := Record(TRANSACTION_FIELDS_CODEC, TRANSACTION)

  lemma TransactionLawful()
    ensures Lawful(TRANSACTION_CODEC)
  {
    hide Lawful;
    StringLawful();
    BlobLawful();
    UintLawful(1);
    PairLawful(BLOB_CODEC, BLOB_CODEC);
    PairLawful(STRING_CODEC, Pair(BLOB_CODEC, BLOB_CODEC));
    RecordLawful(EXTENSION_FIELDS_CODEC, EXTENSION);
    ListLawful(EXTENSION_CODEC);
    PairLawful(List(EXTENSION_CODEC), UINT8_CODEC);
    PairLawful(Pair(BLOB_CODEC, BLOB_CODEC), Pair(List(EXTENSION_CODEC), UINT8_CODEC));
    RecordLawful(TRANSACTION_FIELDS_CODEC, TRANSACTION);
  }

  type ProductFields = (ProductAccountId, Transaction)
  const PRODUCT_FIELDS_CODEC: Codec<ProductFields> := Pair(PRODUCT_ACCOUNT_ID_CODEC, TRANSACTION_CODEC)
  type LegacyFields = (Bytes32, Transaction)
  const LEGACY_FIELDS_CODEC: Codec<LegacyFields> := Pair(BLOB_CODEC, TRANSACTION_CODEC)

  const PRODUCT := View(
    (f: ProductFields) => Product(f.0, f.1),
    (v: CreateTransactionReview) => if v.Product? then Some((v.signer, v.transaction)) else None)
  const LEGACY := View(
    (f: LegacyFields) => LegacyAccount(f.0, f.1),
    (v: CreateTransactionReview) => if v.LegacyAccount? then Some((v.account, v.transaction)) else None)

  function ReviewTag(v: CreateTransactionReview): (n: nat) { if v.Product? then 1 else 2 }

  function ReviewCase(tag: nat): (c: Codec<CreateTransactionReview>) {
    if tag == 1 then Case(PRODUCT_FIELDS_CODEC, PRODUCT) else Case(LEGACY_FIELDS_CODEC, LEGACY)
  }

  const REVIEW_CODEC: Codec<CreateTransactionReview> := Variant(2, ReviewTag, ReviewCase)

  lemma ReviewLawful()
    ensures Lawful(REVIEW_CODEC)
  {
    hide Lawful, LawfulCase, PRODUCT_ACCOUNT_ID_CODEC, TRANSACTION_CODEC;
    ProductAccountIdLawful();
    TransactionLawful();
    BlobLawful();
    PairLawful(PRODUCT_ACCOUNT_ID_CODEC, TRANSACTION_CODEC);
    PairLawful(BLOB_CODEC, TRANSACTION_CODEC);
    CaseLawful(PRODUCT_FIELDS_CODEC, PRODUCT, ReviewTag, 1);
    CaseLawful(LEGACY_FIELDS_CODEC, LEGACY, ReviewTag, 2);
    VariantLawful(2, ReviewTag, ReviewCase);
  }

  /** In any context a written review reads back as itself. */
  lemma ReviewInContext(v: CreateTransactionReview, before: Buffer, after: Buffer)
    requires REVIEW_CODEC.fits(v)
    ensures REVIEW_CODEC.read(SWIFT, before + REVIEW_CODEC.bytes(v) + after, |before|) ==
            Ok(v, |before| + |REVIEW_CODEC.bytes(v)|)
  {
    hide REVIEW_CODEC, Lawful;
    ReviewLawful();
    WindowInContext(before, REVIEW_CODEC.bytes(v), after);
    RoundTripAt(REVIEW_CODEC, SWIFT, before + REVIEW_CODEC.bytes(v) + after, |before|, v);
  }

  /** A review holds no Bool: writing one that was read gives its bytes back exactly if its strings were well formed. */
  lemma ReviewReproducedIffWellFormed(d: Buffer, at: nat)
    requires at <= |d| && REVIEW_CODEC.read(SWIFT, d, at).Ok?
    ensures var r, checked := REVIEW_CODEC.read(SWIFT, d, at), REVIEW_CODEC.read(Checks(true, true, false), d, at);
            && at <= r.next <= |d|
            && (checked.Ok? <==> REVIEW_CODEC.fits(r.value) && REVIEW_CODEC.bytes(r.value) == d[at..r.next])
  {
    hide REVIEW_CODEC, Lawful;
    ReviewLawful();
    var k := Checks(true, true, false);
    LawAt(REVIEW_CODEC, SWIFT, d, at);
    LawAt(REVIEW_CODEC, k, d, at);
    var r := REVIEW_CODEC.read(SWIFT, d, at);
    if REVIEW_CODEC.fits(r.value) && REVIEW_CODEC.bytes(r.value) == d[at..r.next] {
      RoundTripAt(REVIEW_CODEC, k, d, at, r.value);
    }
  }

  /** A hash of any length fits and comes back: the reader of `Bytes32` never objects. */
  lemma HashOfAnyLength(v: CreateTransactionReview, hash: Bytes32)
    requires REVIEW_CODEC.fits(v) && |hash| <= MAX_INT32
    ensures REVIEW_CODEC.fits(v.(transaction := v.transaction.(genesisHash := hash)))
  {
    var t := v.transaction.(genesisHash := hash);
    assert ReviewCase(ReviewTag(v)).fits(v);
    assert TRANSACTION_CODEC.fits(v.transaction);
    assert TRANSACTION_FIELDS_CODEC.fits(((hash, t.callData), (t.extensions, t.txExtVersion)));
    assert TRANSACTION_CODEC.fits(t);
    var w := v.(transaction := t);
    assert ReviewTag(w) == ReviewTag(v) && ReviewCase(ReviewTag(w)).fits(w);
  }
}
