/**
  The writers as the generated code has them, without combinators: case numbers, field order and tag bytes
  are spelled out, and integers are taken apart by division. `RendererCodec` and `ReviewCodec` write the
  same bytes.
 */
module WireWriter {
  import opened BigEndian
  import opened Optionals
  import opened Utf8
  import opened Wire
  import opened RendererTree
  import opened RendererCodec
  import opened ReviewCodec
  import WireFormat

  // ---------------------------------------------------------------------------------------------
  // Writers
  // ---------------------------------------------------------------------------------------------

  /** Four bytes, most significant first. */
  function WriteWord(u: nat): (s: Buffer)
    ensures |s| == 4
  {
    [u / 0x100_0000 % 256, u / 0x1_0000 % 256, u / 0x100 % 256, u % 256]
  }

  function WriteInt32(v: int): (s: Buffer) { WriteWord(v % 0x1_0000_0000) }

  function WriteUInt64(v: nat): (s: Buffer) { WriteWord(v / 0x1_0000_0000) + WriteWord(v % 0x1_0000_0000) }

  function WriteUInt8(v: nat): (s: Buffer) { [v % 256] }

  function WriteBool(b: bool): (s: Buffer) { if b then [1] else [0] }

  function WriteData(v: Buffer): (s: Buffer) { WriteInt32(|v|) + v }

  function WriteString(t: Text): (s: Buffer) { WriteInt32(|Encode(t)|) + Encode(t) }

  function WriteMaybe<T>(write: T -> Buffer, v: Maybe<T>): (s: Buffer) {
    if v.None? then [0] else [1] + write(v.value)
  }

  function WriteItems<T>(write: T -> Buffer, vs: seq<T>): (s: Buffer) {
    if vs == [] then [] else write(vs[0]) + WriteItems(write, vs[1..])
  }

  function WriteSequence<T>(write: T -> Buffer, vs: seq<T>): (s: Buffer) { WriteInt32(|vs|) + WriteItems(write, vs) }

  function WriteSize(n: nat): (s: Buffer) { WriteUInt64(n) }

  function WriteColorToken(v: ColorToken): (s: Buffer) {
    WriteInt32(match v
               case FgPrimary => 1
               case FgSecondary => 2
               case FgTertiary => 3
               case BgSurfaceMain => 4
               case BgSurfaceContainer => 5
               case BgSurfaceNested => 6
               case FgSuccess => 7
               case FgError => 8
               case FgWarning => 9)
  }

  function WriteContentAlignment(v: ContentAlignment): (s: Buffer) {
    WriteInt32(match v
               case TopStart => 1
               case TopCenter => 2
               case TopEnd => 3
               case CenterStart => 4
               case Centered => 5
               case CenterEnd => 6
               case BottomStart => 7
               case BottomCenter => 8
               case BottomEnd => 9)
  }

  function WriteHorizontalAlignment(v: HorizontalAlignment): (s: Buffer) {
    WriteInt32(match v case AlignStart => 1 case AlignCenter => 2 case AlignEnd => 3)
  }

  function WriteVerticalAlignment(v: VerticalAlignment): (s: Buffer) {
    WriteInt32(match v case AlignTop => 1 case AlignMiddle => 2 case AlignBottom => 3)
  }

  function WriteArrangement(v: Arrangement): (s: Buffer) {
    WriteInt32(match v
               case ArrangeStart => 1
               case ArrangeEnd => 2
               case ArrangeCenter => 3
               case SpaceBetween => 4
               case SpaceAround => 5
               case SpaceEvenly => 6)
  }

  function WriteButtonVariant(v: ButtonVariant): (s: Buffer) {
    WriteInt32(match v case Primary => 1 case Secondary => 2 case TextOnly => 3)
  }

  function WriteTypographyStyle(v: TypographyStyle): (s: Buffer) {
    WriteInt32(match v
               case HeadlineLarge => 1
               case TitleMediumRegular => 2
               case BodyLargeRegular => 3
               case BodyMediumRegular => 4
               case BodySmallRegular => 5)
  }

  function WriteShape(v: Shape): (s: Buffer) {
    match v
    case Rounded(radius) => WriteInt32(1) + WriteSize(radius)
    case Circle => WriteInt32(2)
  }

  function WriteDimensions(v: Dimensions): (s: Buffer) {
    WriteSize(v.top) + WriteSize(v.end) + WriteMaybe(WriteSize, v.bottom) + WriteMaybe(WriteSize, v.start)
  }

  function WriteBackground(v: Background): (s: Buffer) {
    WriteColorToken(v.color) + WriteMaybe(WriteShape, v.shape)
  }

  function WriteBorderStyle(v: BorderStyle): (s: Buffer) {
    WriteSize(v.width) + WriteColorToken(v.color) + WriteMaybe(WriteShape, v.shape)
  }

  function WriteModifier(v: Modifier): (s: Buffer) {
    match v
    case Margin(d) => WriteInt32(1) + WriteDimensions(d)
    case Padding(d) => WriteInt32(2) + WriteDimensions(d)
    case Backdrop(b) => WriteInt32(3) + WriteBackground(b)
    case Border(b) => WriteInt32(4) + WriteBorderStyle(b)
    case Height(n) => WriteInt32(5) + WriteSize(n)
    case Width(n) => WriteInt32(6) + WriteSize(n)
    case MinWidth(n) => WriteInt32(7) + WriteSize(n)
    case MinHeight(n) => WriteInt32(8) + WriteSize(n)
    case FillWidth(b) => WriteInt32(9) + WriteBool(b)
    case FillHeight(b) => WriteInt32(10) + WriteBool(b)
  }

  function WriteModifiers(vs: seq<Modifier>): (s: Buffer) { WriteSequence(WriteModifier, vs) }

  function WriteBoxProps(v: BoxProps): (s: Buffer) { WriteMaybe(WriteContentAlignment, v.contentAlignment) }

  function WriteColumnProps(v: ColumnProps): (s: Buffer) {
    WriteMaybe(WriteHorizontalAlignment, v.horizontalAlignment) + WriteMaybe(WriteArrangement, v.verticalArrangement)
  }

  function WriteRowProps(v: RowProps): (s: Buffer) {
    WriteMaybe(WriteVerticalAlignment, v.verticalAlignment) + WriteMaybe(WriteArrangement, v.horizontalArrangement)
  }

  function WriteTextProps(v: TextProps): (s: Buffer) {
    WriteMaybe(WriteTypographyStyle, v.style) + WriteMaybe(WriteColorToken, v.color)
  }

  function WriteButtonProps(v: ButtonProps): (s: Buffer) {
    WriteString(v.text) + WriteMaybe(WriteButtonVariant, v.variant) + WriteMaybe(WriteBool, v.enabled)
    + WriteMaybe(WriteBool, v.loading) + WriteMaybe(WriteString, v.clickAction)
  }

  function WriteTextFieldProps(v: TextFieldProps): (s: Buffer) {
    WriteString(v.text) + WriteMaybe(WriteString, v.placeholder) + WriteMaybe(WriteString, v.fieldLabel)
    + WriteMaybe(WriteBool, v.enabled) + WriteMaybe(WriteString, v.valueChangeAction)
  }

  /** The nine cases: modifiers, properties, children. */
  function WriteNode(v: Node): (s: Buffer)
    decreases v, 1
  {
    match v
    case NilNode => WriteInt32(1)
    case StringNode(text) => WriteInt32(2) + WriteString(text)
    case BoxNode(m, p, c) => WriteInt32(3) + WriteModifiers(m) + WriteBoxProps(p) + WriteChildren(c)
    case ColumnNode(m, p, c) => WriteInt32(4) + WriteModifiers(m) + WriteColumnProps(p) + WriteChildren(c)
    case RowNode(m, p, c) => WriteInt32(5) + WriteModifiers(m) + WriteRowProps(p) + WriteChildren(c)
    case SpacerNode(m, c) => WriteInt32(6) + WriteModifiers(m) + WriteChildren(c)
    case TextNode(m, p, c) => WriteInt32(7) + WriteModifiers(m) + WriteTextProps(p) + WriteChildren(c)
    case ButtonNode(m, p, c) => WriteInt32(8) + WriteModifiers(m) + WriteButtonProps(p) + WriteChildren(c)
    case TextFieldNode(m, p, c) => WriteInt32(9) + WriteModifiers(m) + WriteTextFieldProps(p) + WriteChildren(c)
  }

  function WriteChildren(vs: seq<Node>): (s: Buffer)
    decreases vs, 1
  {
    WriteInt32(|vs|) + WriteNodes(vs)
  }

  function WriteNodes(vs: seq<Node>): (s: Buffer)
    decreases vs, 0
  {
    if vs == [] then [] else WriteNode(vs[0]) + WriteNodes(vs[1..])
  }

  function WriteDerivationIndex(v: DerivationIndex): (s: Buffer) {
    match v
    case Index(n) => WriteInt32(1) + WriteWord(n)
    case Raw(bytes) => WriteInt32(2) + WriteData(bytes)
  }

  function WriteExtension(v: TxPayloadExtension): (s: Buffer) {
    WriteString(v.id) + WriteData(v.extra) + WriteData(v.additionalSigned)
  }

  function WriteTransaction(t: Transaction): (s: Buffer) {
    WriteData(t.genesisHash) + WriteData(t.callData) + WriteSequence(WriteExtension, t.extensions)
    + WriteUInt8(t.txExtVersion)
  }

  function WriteReview(v: CreateTransactionReview): (s: Buffer) {
    match v
    case Product(signer, t) =>
      WriteInt32(1) + WriteString(signer.dotNsIdentifier) + WriteDerivationIndex(signer.derivationIndex)
      + WriteTransaction(t)
    case LegacyAccount(account, t) => WriteInt32(2) + WriteData(account) + WriteTransaction(t)
  }

  // ---------------------------------------------------------------------------------------------
  // The combinators write the same
  // ---------------------------------------------------------------------------------------------

  /** A converter writes what the writer does, on every value that fits. */
  ghost predicate Writes<T(!new)>(c: Codec<T>, write: T -> Buffer) {
    forall v :: c.fits(v) ==> c.bytes(v) == write(v)
  }

  lemma Digits(u: nat)
    requires u < 0x1_0000_0000
    ensures 0x100_0000 * (u / 0x100_0000 % 256) + 0x1_0000 * (u / 0x1_0000 % 256)
            + 0x100 * (u / 0x100 % 256) + u % 256 == u
  {
    assert u / 0x1_0000 == u / 0x100 / 256 && u / 0x100_0000 == u / 0x1_0000 / 256;
  }

  lemma WordIsWritten(u: nat)
    requires u < 0x1_0000_0000
    ensures BytesUint(WriteWord(u)) == u && u < Pow256(4) && UintBytes(u, 4) == WriteWord(u)
  {
    hide BytesUint, UintBytes, Pow256;
    Pow256OfFour();
    var s := WriteWord(u);
    WordReads(s);
    Digits(u);
    BytesRoundTrip(s);
  }

  lemma WordReads(s: seq<Byte>)
    requires |s| == 4
    ensures BytesUint(s) == 0x100_0000 * (s[0] as int) + 0x1_0000 * (s[1] as int) + 0x100 * (s[2] as int) + s[3]
  {
    WireFormat.Int32Layout(s);
  }

  lemma Int32IsWritten(v: int)
    requires -MAX_INT32 - 1 <= v <= MAX_INT32
    ensures Int32Bytes(v) == WriteInt32(v)
  {
    hide UintBytes, WriteWord;
    WordIsWritten(v % 0x1_0000_0000);
  }

  lemma WordBehind(a: Buffer, b: Buffer)
    requires |b| == 4
    ensures BytesUint(a + b) == 0x1_0000_0000 * BytesUint(a) + BytesUint(b)
  {
    var b1, b2, b3 := b[..1], b[..2], b[..3];
    assert b3[..2] == b2 && b2[..1] == b1 && b1[..0] == [];
    assert (a + b)[..|a| + 3] == a + b3 && (a + b3)[..|a| + 2] == a + b2;
    assert (a + b2)[..|a| + 1] == a + b1 && (a + b1)[..|a|] == a;
    assert BytesUint(a + b1) == 256 * BytesUint(a) + BytesUint(b1);
    assert BytesUint(a + b2) == 0x1_0000 * BytesUint(a) + BytesUint(b2);
    assert BytesUint(a + b3) == 0x100_0000 * BytesUint(a) + BytesUint(b3);
  }

  lemma SizeIsWritten()
    ensures Writes(SIZE_CODEC, WriteSize)
  {
    hide BytesUint, UintBytes, Pow256, WriteWord;
    forall v: nat | SIZE_CODEC.fits(v) ensures SIZE_CODEC.bytes(v) == WriteSize(v) {
      Pow256OfEight();
      var high, low := WriteWord(v / 0x1_0000_0000), WriteWord(v % 0x1_0000_0000);
      WordIsWritten(v / 0x1_0000_0000);
      WordIsWritten(v % 0x1_0000_0000);
      WordBehind(high, low);
      BytesRoundTrip(high + low);
    }
  }

  lemma Pow256OfEight()
    ensures Pow256(8) == 0x1_0000_0000_0000_0000
  {
    Pow256OfFour();
    assert Pow256(5) == 0x100_0000_0000 && Pow256(6) == 0x1_0000_0000_0000;
  }

  lemma LeavesAreWritten()
    ensures Writes(BOOL_CODEC, WriteBool) && Writes(BLOB_CODEC, WriteData) && Writes(STRING_CODEC, WriteString)
  {
    hide Int32Bytes, WriteInt32, Encode;
    forall n | 0 <= n <= MAX_INT32 ensures Int32Bytes(n) == WriteInt32(n) {
      Int32IsWritten(n);
    }
  }

  lemma MaybeIsWritten<T(!new)>(c: Codec<T>, write: T -> Buffer)
    requires Writes(c, write)
    ensures forall v :: Optional(c).fits(v) ==> Optional(c).bytes(v) == WriteMaybe(write, v)
  {
  }

  lemma {:induction false} ItemsAreWritten<T(!new)>(c: Codec<T>, write: T -> Buffer, vs: seq<T>)
    requires Writes(c, write) && AllFit(c, vs)
    ensures BytesOfMany(c, vs) == WriteItems(write, vs)
  {
    if vs == [] {
    } else {
      ItemsAreWritten(c, write, vs[1..]);
    }
  }

  lemma SequenceIsWritten<T(!new)>(c: Codec<T>, write: T -> Buffer)
    requires Writes(c, write)
    ensures forall vs :: List(c).fits(vs) ==> List(c).bytes(vs) == WriteSequence(write, vs)
  {
    hide Int32Bytes, WriteInt32;
    forall vs | List(c).fits(vs) ensures List(c).bytes(vs) == WriteSequence(write, vs) {
      Int32IsWritten(|vs|);
      ItemsAreWritten(c, write, vs);
    }
  }

  /** An enum whose writer gives each case its number. */
  lemma EnumIsWritten<T(!new)>(all: seq<T>, write: T -> Buffer)
    requires |all| < MAX_INT32 && forall i :: 0 <= i < |all| ==> write(all[i]) == WriteInt32(i + 1)
    ensures Writes(Enum(all), write)
  {
    hide Int32Bytes, WriteInt32;
    forall v | Enum(all).fits(v) ensures Enum(all).bytes(v) == write(v) {
      Int32IsWritten(CaseNumber(all, v) + 1);
    }
  }

  lemma LargeEnumsAreWritten()
    ensures Writes(COLOR_TOKEN_CODEC, WriteColorToken) && Writes(CONTENT_ALIGNMENT_CODEC, WriteContentAlignment)
  {
    hide WriteInt32, Writes;
    EnumIsWritten(COLOR_TOKENS, WriteColorToken);
    EnumIsWritten(CONTENT_ALIGNMENTS, WriteContentAlignment);
  }

  lemma SmallEnumsAreWritten()
    ensures Writes(HORIZONTAL_ALIGNMENT_CODEC, WriteHorizontalAlignment)
    ensures Writes(VERTICAL_ALIGNMENT_CODEC, WriteVerticalAlignment) && Writes(ARRANGEMENT_CODEC, WriteArrangement)
    ensures Writes(BUTTON_VARIANT_CODEC, WriteButtonVariant) && Writes(TYPOGRAPHY_STYLE_CODEC, WriteTypographyStyle)
  {
    hide WriteInt32, Writes;
    EnumIsWritten(HORIZONTAL_ALIGNMENTS, WriteHorizontalAlignment);
    EnumIsWritten(VERTICAL_ALIGNMENTS, WriteVerticalAlignment);
    EnumIsWritten(ARRANGEMENTS, WriteArrangement);
    EnumIsWritten(BUTTON_VARIANTS, WriteButtonVariant);
    EnumIsWritten(TYPOGRAPHY_STYLES, WriteTypographyStyle);
  }

  lemma DimensionsAreWritten()
    ensures Writes(DIMENSIONS_CODEC, WriteDimensions)
  {
    SizeIsWritten();
    MaybeIsWritten(SIZE_CODEC, WriteSize);
    hide SIZE_CODEC, Optional, WriteSize, WriteMaybe;
  }

  lemma ShapeIsWritten()
    ensures Writes(SHAPE_CODEC, WriteShape)
  {
    SizeIsWritten();
    Int32IsWritten(1);
    Int32IsWritten(2);
    hide SIZE_CODEC, WriteSize, Int32Bytes, WriteInt32;
    forall v | SHAPE_CODEC.fits(v) ensures SHAPE_CODEC.bytes(v) == WriteShape(v) {
      assert SHAPE_CODEC.bytes(v) == Int32Bytes(ShapeTag(v)) + ShapeCase(ShapeTag(v)).bytes(v);
      assert ShapeCase(ShapeTag(v)).fits(v);
    }
  }

  lemma BackgroundIsWritten()
    ensures Writes(BACKGROUND_CODEC, WriteBackground) && Writes(BORDER_STYLE_CODEC, WriteBorderStyle)
  {
    SizeIsWritten();
    LargeEnumsAreWritten();
    ShapeIsWritten();
    MaybeIsWritten(SHAPE_CODEC, WriteShape);
    hide SIZE_CODEC, WriteSize, COLOR_TOKEN_CODEC, WriteColorToken, SHAPE_CODEC, Optional, WriteShape, WriteMaybe;
  }

  lemma ModifierIsTagged(v: Modifier)
    requires MODIFIER_CODEC.fits(v)
    ensures MODIFIER_CODEC.bytes(v) == WriteInt32(ModifierTag(v)) + ModifierCase(ModifierTag(v)).bytes(v)
    ensures ModifierCase(ModifierTag(v)).fits(v)
  {
    Int32IsWritten(ModifierTag(v));
    hide ModifierCase, Int32Bytes, WriteInt32;
  }

  lemma BoxModifierIsWritten(v: Modifier)
    requires ModifierTag(v) <= 4 && ModifierCase(ModifierTag(v)).fits(v)
    ensures WriteInt32(ModifierTag(v)) + ModifierCase(ModifierTag(v)).bytes(v) == WriteModifier(v)
  {
    DimensionsAreWritten();
    BackgroundIsWritten();
    hide DIMENSIONS_CODEC, WriteDimensions, BACKGROUND_CODEC, WriteBackground, BORDER_STYLE_CODEC, WriteBorderStyle,
         WriteInt32, HEIGHT_CODEC, WIDTH_CODEC, MIN_WIDTH_CODEC, MIN_HEIGHT_CODEC, FILL_WIDTH_CODEC,
         FILL_HEIGHT_CODEC;
  }

  lemma SizeModifierIsWritten(v: Modifier)
    requires ModifierTag(v) >= 5 && ModifierCase(ModifierTag(v)).fits(v)
    ensures WriteInt32(ModifierTag(v)) + ModifierCase(ModifierTag(v)).bytes(v) == WriteModifier(v)
  {
    SizeIsWritten();
    LeavesAreWritten();
    hide SIZE_CODEC, WriteSize, BOOL_CODEC, WriteBool, WriteInt32, MARGIN_CODEC, PADDING_CODEC, BACKDROP_CODEC,
         BORDER_CODEC, BLOB_CODEC, WriteData, STRING_CODEC, WriteString;
  }

  lemma ModifierIsWritten()
    ensures Writes(MODIFIER_CODEC, WriteModifier)
  {
    hide ModifierCase, WriteModifier, WriteInt32;
    forall v | MODIFIER_CODEC.fits(v) ensures MODIFIER_CODEC.bytes(v) == WriteModifier(v) {
      ModifierIsTagged(v);
      if ModifierTag(v) <= 4 {
        BoxModifierIsWritten(v);
      } else {
        SizeModifierIsWritten(v);
      }
    }
  }

  lemma LayoutPropsAreWritten()
    ensures Writes(BOX_PROPS_CODEC, WriteBoxProps) && Writes(COLUMN_PROPS_CODEC, WriteColumnProps)
    ensures Writes(ROW_PROPS_CODEC, WriteRowProps) && Writes(TEXT_PROPS_CODEC, WriteTextProps)
  {
    LargeEnumsAreWritten();
    SmallEnumsAreWritten();
    MaybeIsWritten(CONTENT_ALIGNMENT_CODEC, WriteContentAlignment);
    MaybeIsWritten(HORIZONTAL_ALIGNMENT_CODEC, WriteHorizontalAlignment);
    MaybeIsWritten(VERTICAL_ALIGNMENT_CODEC, WriteVerticalAlignment);
    MaybeIsWritten(ARRANGEMENT_CODEC, WriteArrangement);
    MaybeIsWritten(TYPOGRAPHY_STYLE_CODEC, WriteTypographyStyle);
    MaybeIsWritten(COLOR_TOKEN_CODEC, WriteColorToken);
    hide Optional, WriteMaybe, CONTENT_ALIGNMENT_CODEC, WriteContentAlignment, HORIZONTAL_ALIGNMENT_CODEC,
         WriteHorizontalAlignment, VERTICAL_ALIGNMENT_CODEC, WriteVerticalAlignment, ARRANGEMENT_CODEC,
         WriteArrangement, TYPOGRAPHY_STYLE_CODEC, WriteTypographyStyle, COLOR_TOKEN_CODEC, WriteColorToken;
  }

  lemma Reassociate(a: Buffer, b: Buffer, c: Buffer, d: Buffer, e: Buffer)
    ensures (a + b) + ((c + d) + e) == a + b + c + d + e
  {
  }

  lemma ButtonPropsAreWritten()
    ensures Writes(BUTTON_PROPS_CODEC, WriteButtonProps)
  {
    LeavesAreWritten();
    SmallEnumsAreWritten();
    MaybeIsWritten(BUTTON_VARIANT_CODEC, WriteButtonVariant);
    MaybeIsWritten(BOOL_CODEC, WriteBool);
    MaybeIsWritten(STRING_CODEC, WriteString);
    hide Optional, WriteMaybe, BUTTON_VARIANT_CODEC, WriteButtonVariant, BOOL_CODEC, WriteBool, STRING_CODEC,
         WriteString;
    forall v | BUTTON_PROPS_CODEC.fits(v) ensures BUTTON_PROPS_CODEC.bytes(v) == WriteButtonProps(v) {
      Reassociate(WriteString(v.text), WriteMaybe(WriteButtonVariant, v.variant), WriteMaybe(WriteBool, v.enabled),
                  WriteMaybe(WriteBool, v.loading), WriteMaybe(WriteString, v.clickAction));
    }
  }

  lemma TextFieldPropsAreWritten()
    ensures Writes(TEXT_FIELD_PROPS_CODEC, WriteTextFieldProps)
  {
    LeavesAreWritten();
    MaybeIsWritten(BOOL_CODEC, WriteBool);
    MaybeIsWritten(STRING_CODEC, WriteString);
    hide Optional, WriteMaybe, BOOL_CODEC, WriteBool, STRING_CODEC, WriteString;
    forall v | TEXT_FIELD_PROPS_CODEC.fits(v) ensures TEXT_FIELD_PROPS_CODEC.bytes(v) == WriteTextFieldProps(v) {
      Reassociate(WriteString(v.text), WriteMaybe(WriteString, v.placeholder), WriteMaybe(WriteString, v.fieldLabel),
                  WriteMaybe(WriteBool, v.enabled), WriteMaybe(WriteString, v.valueChangeAction));
    }
  }

  /** What a node writes before its children. */
  function WriteHead(h: Head): (s: Buffer) {
    match h
    case NilHead => WriteInt32(1)
    case StringHead(text) => WriteInt32(2) + WriteString(text)
    case BoxHead(m, p) => WriteInt32(3) + WriteModifiers(m) + WriteBoxProps(p)
    case ColumnHead(m, p) => WriteInt32(4) + WriteModifiers(m) + WriteColumnProps(p)
    case RowHead(m, p) => WriteInt32(5) + WriteModifiers(m) + WriteRowProps(p)
    case SpacerHead(m) => WriteInt32(6) + WriteModifiers(m)
    case TextHead(m, p) => WriteInt32(7) + WriteModifiers(m) + WriteTextProps(p)
    case ButtonHead(m, p) => WriteInt32(8) + WriteModifiers(m) + WriteButtonProps(p)
    case TextFieldHead(m, p) => WriteInt32(9) + WriteModifiers(m) + WriteTextFieldProps(p)
  }

  lemma HeadIsTagged(h: Head)
    requires HEAD_CODEC.fits(h)
    ensures HEAD_CODEC.bytes(h) == WriteInt32(HeadTag(h)) + HeadCase(HeadTag(h)).bytes(h)
    ensures HeadCase(HeadTag(h)).fits(h)
  {
    Int32IsWritten(HeadTag(h));
    hide HeadCase, Int32Bytes, WriteInt32;
  }

  lemma ModifiersAreWritten()
    ensures Writes(MODIFIERS_CODEC, WriteModifiers)
  {
    hide MODIFIER_CODEC, WriteModifier, List, WriteSequence;
    ModifierIsWritten();
    SequenceIsWritten(MODIFIER_CODEC, WriteModifier);
  }

  lemma PlainHeadIsWritten(h: Head)
    requires HeadTag(h) in {1, 2, 6} && HeadCase(HeadTag(h)).fits(h)
    ensures WriteInt32(HeadTag(h)) + HeadCase(HeadTag(h)).bytes(h) == WriteHead(h)
  {
    LeavesAreWritten();
    ModifiersAreWritten();
    hide STRING_CODEC, WriteString, MODIFIERS_CODEC, WriteModifiers, WriteInt32, BOX_HEAD_CODEC, COLUMN_HEAD_CODEC,
         ROW_HEAD_CODEC, TEXT_HEAD_CODEC, BUTTON_HEAD_CODEC, TEXT_FIELD_HEAD_CODEC, BOOL_CODEC, BLOB_CODEC;
    assert WriteInt32(1) + [] == WriteInt32(1);
  }

  lemma BoxHeadIsWritten(h: Head)
    requires HeadTag(h) in {3, 4, 5} && HeadCase(HeadTag(h)).fits(h)
    ensures WriteInt32(HeadTag(h)) + HeadCase(HeadTag(h)).bytes(h) == WriteHead(h)
  {
    LayoutPropsAreWritten();
    ModifiersAreWritten();
    hide MODIFIERS_CODEC, WriteModifiers, WriteInt32, BOX_PROPS_CODEC, WriteBoxProps, COLUMN_PROPS_CODEC,
         WriteColumnProps, ROW_PROPS_CODEC, WriteRowProps, TEXT_PROPS_CODEC, WriteTextProps, NIL_HEAD_CODEC,
         STRING_HEAD_CODEC, SPACER_HEAD_CODEC, TEXT_HEAD_CODEC, BUTTON_HEAD_CODEC, TEXT_FIELD_HEAD_CODEC;
  }

  lemma TextHeadIsWritten(h: Head)
    requires HeadTag(h) in {7, 8, 9} && HeadCase(HeadTag(h)).fits(h)
    ensures WriteInt32(HeadTag(h)) + HeadCase(HeadTag(h)).bytes(h) == WriteHead(h)
  {
    LayoutPropsAreWritten();
    ButtonPropsAreWritten();
    TextFieldPropsAreWritten();
    ModifiersAreWritten();
    hide MODIFIERS_CODEC, WriteModifiers, WriteInt32, TEXT_PROPS_CODEC, WriteTextProps, BUTTON_PROPS_CODEC,
         WriteButtonProps, TEXT_FIELD_PROPS_CODEC, WriteTextFieldProps, BOX_PROPS_CODEC, COLUMN_PROPS_CODEC,
         ROW_PROPS_CODEC, NIL_HEAD_CODEC, STRING_HEAD_CODEC, SPACER_HEAD_CODEC, BOX_HEAD_CODEC, COLUMN_HEAD_CODEC,
         ROW_HEAD_CODEC;
  }

  lemma HeadIsWritten(h: Head)
    requires HEAD_CODEC.fits(h)
    ensures HEAD_CODEC.bytes(h) == WriteHead(h)
  {
    hide HeadCase, WriteHead, WriteInt32;
    HeadIsTagged(h);
    match HeadTag(h)
    case 1 | 2 | 6 => PlainHeadIsWritten(h);
    case 3 | 4 | 5 => BoxHeadIsWritten(h);
    case _ => TextHeadIsWritten(h);
  }

  /** For every tree that fits, the recursive converter writes exactly what the generated code spells out. */
  lemma {:induction false} NodeIsWritten(v: Node)
    requires Fits(v)
    ensures NodeBytes(v) == WriteNode(v)
    decreases v, 1
  {
    hide HEAD_CODEC;
    HeadIsWritten(HeadOf(v));
    if HasChildren(HeadOf(v)) {
      ChildrenAreWritten(v.children);
    }
    NodeIsHeadAndChildren(v);
  }

  lemma NodeIsHeadAndChildren(v: Node)
    ensures WriteNode(v) == WriteHead(HeadOf(v)) + if HasChildren(HeadOf(v)) then WriteChildren(v.children) else []
  {
    hide WriteChildren, WriteInt32, WriteString, WriteModifiers, WriteBoxProps, WriteColumnProps, WriteRowProps,
         WriteTextProps, WriteButtonProps, WriteTextFieldProps;
    assert WriteHead(HeadOf(v)) + [] == WriteHead(HeadOf(v));
  }

  lemma {:induction false} ChildrenAreWritten(vs: seq<Node>)
    requires ChildrenFit(vs)
    ensures ChildrenBytes(vs) == WriteChildren(vs)
    decreases vs, 1
  {
    hide Fits, NodeBytes, WriteNode, Int32Bytes, WriteInt32;
    Int32IsWritten(|vs|);
    NodesAreWritten(vs);
  }

  lemma {:induction false} NodesAreWritten(vs: seq<Node>)
    requires AllNodesFit(vs)
    ensures NodesBytes(vs) == WriteNodes(vs)
    decreases vs, 0
  {
    hide Fits, NodeBytes, WriteNode;
    if vs == [] {
    } else {
      NodeIsWritten(vs[0]);
      NodesAreWritten(vs[1..]);
    }
  }

  lemma DerivationIndexIsWritten()
    ensures Writes(DERIVATION_INDEX_CODEC, WriteDerivationIndex)
  {
    LeavesAreWritten();
    Int32IsWritten(1);
    Int32IsWritten(2);
    Pow256OfFour();
    forall n: nat | UINT32_CODEC.fits(n) ensures UINT32_CODEC.bytes(n) == WriteWord(n) {
      WordIsWritten(n);
    }
    hide UINT32_CODEC, WriteWord, BLOB_CODEC, WriteData, Int32Bytes, WriteInt32, STRING_CODEC, BOOL_CODEC;
    forall v | DERIVATION_INDEX_CODEC.fits(v) ensures DERIVATION_INDEX_CODEC.bytes(v) == WriteDerivationIndex(v) {
      var tag := DerivationIndexTag(v);
      assert DERIVATION_INDEX_CODEC.bytes(v) == Int32Bytes(tag) + DerivationIndexCase(tag).bytes(v);
      assert DerivationIndexCase(tag).fits(v);
    }
  }

  lemma ExtensionsAreWritten()
    ensures Writes(EXTENSION_CODEC, WriteExtension)
    ensures forall vs :: List(EXTENSION_CODEC).fits(vs) ==>
                           List(EXTENSION_CODEC).bytes(vs) == WriteSequence(WriteExtension, vs)
  {
    LeavesAreWritten();
    hide BLOB_CODEC, WriteData, STRING_CODEC, WriteString, BOOL_CODEC, List, WriteSequence;
    assert Writes(EXTENSION_CODEC, WriteExtension);
    SequenceIsWritten(EXTENSION_CODEC, WriteExtension);
  }

  lemma ByteIsWritten()
    ensures Writes(UINT8_CODEC, WriteUInt8)
  {
    Pow256OfFour();
    forall n: nat | UINT8_CODEC.fits(n) ensures UINT8_CODEC.bytes(n) == WriteUInt8(n) {
      assert UintBytes(n / 256, 0) == [];
    }
  }

  lemma TransactionIsWritten()
    ensures Writes(TRANSACTION_CODEC, WriteTransaction)
  {
    LeavesAreWritten();
    ExtensionsAreWritten();
    ByteIsWritten();
    hide BLOB_CODEC, WriteData, STRING_CODEC, BOOL_CODEC, List, WriteSequence, EXTENSION_CODEC, WriteExtension,
         UINT8_CODEC, WriteUInt8;
  }

  lemma ReviewIsTagged(v: CreateTransactionReview)
    requires REVIEW_CODEC.fits(v)
    ensures REVIEW_CODEC.bytes(v) == WriteInt32(ReviewTag(v)) + ReviewCase(ReviewTag(v)).bytes(v)
    ensures ReviewCase(ReviewTag(v)).fits(v)
  {
    Int32IsWritten(ReviewTag(v));
    hide ReviewCase, Int32Bytes, WriteInt32;
  }

  lemma AccountIsWritten(v: ProductAccountId)
    requires PRODUCT_ACCOUNT_ID_CODEC.fits(v)
    ensures PRODUCT_ACCOUNT_ID_CODEC.bytes(v) ==
            WriteString(v.dotNsIdentifier) + WriteDerivationIndex(v.derivationIndex)
  {
    LeavesAreWritten();
    DerivationIndexIsWritten();
    hide STRING_CODEC, WriteString, DERIVATION_INDEX_CODEC, WriteDerivationIndex, BOOL_CODEC, BLOB_CODEC;
  }

  lemma CasesAreWritten(v: CreateTransactionReview)
    requires ReviewCase(ReviewTag(v)).fits(v)
    ensures v.Product? ==>
              ReviewCase(1).bytes(v) ==
              WriteString(v.signer.dotNsIdentifier) + WriteDerivationIndex(v.signer.derivationIndex)
              + WriteTransaction(v.transaction)
    ensures v.LegacyAccount? ==> ReviewCase(2).bytes(v) == WriteData(v.account) + WriteTransaction(v.transaction)
  {
    LeavesAreWritten();
    TransactionIsWritten();
    hide BLOB_CODEC, WriteData, STRING_CODEC, WriteString, BOOL_CODEC, WriteDerivationIndex, PRODUCT_ACCOUNT_ID_CODEC,
         TRANSACTION_CODEC, WriteTransaction;
    if v.Product? {
      AccountIsWritten(v.signer);
    }
  }

  /** The same for the nested review. */
  lemma ReviewIsWritten(v: CreateTransactionReview)
    requires REVIEW_CODEC.fits(v)
    ensures REVIEW_CODEC.bytes(v) == WriteReview(v)
  {
    ReviewIsTagged(v);
    CasesAreWritten(v);
    assert ReviewTag(v) == if v.Product? then 1 else 2;
    hide REVIEW_CODEC, ReviewCase, WriteInt32, WriteString, WriteData, WriteDerivationIndex, WriteTransaction;
    hide ReviewTag;
    match v
    case Product(signer, t) =>
      Prepend(WriteInt32(1), WriteString(signer.dotNsIdentifier), WriteDerivationIndex(signer.derivationIndex),
              WriteTransaction(t));
    case LegacyAccount(account, t) => Prepend(WriteInt32(2), WriteData(account), [], WriteTransaction(t));
  }

  lemma Prepend(a: Buffer, b: Buffer, c: Buffer, d: Buffer)
    ensures a + (b + c + d) == a + b + c + d && (c == [] ==> a + (b + d) == a + b + d)
  {
  }
}
