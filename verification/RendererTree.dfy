/**
  The custom renderer tree and its converters, put together from the combinators of `Wire` in the
  order in which the generated code writes the fields.
 */
module RendererTree {
  import opened Optionals
  import opened Utf8
  import opened Wire

  datatype ColorToken =
    | FgPrimary | FgSecondary | FgTertiary | BgSurfaceMain | BgSurfaceContainer | BgSurfaceNested
    | FgSuccess | FgError | FgWarning

  datatype ContentAlignment =
    | TopStart | TopCenter | TopEnd | CenterStart | Centered | CenterEnd
    | BottomStart | BottomCenter | BottomEnd

  datatype HorizontalAlignment = AlignStart | AlignCenter | AlignEnd

  datatype VerticalAlignment = AlignTop | AlignMiddle | AlignBottom

  datatype Arrangement = ArrangeStart | ArrangeEnd | ArrangeCenter | SpaceBetween | SpaceAround | SpaceEvenly

  datatype ButtonVariant = Primary | Secondary | TextOnly

  datatype TypographyStyle =
    | HeadlineLarge | TitleMediumRegular | BodyLargeRegular | BodyMediumRegular | BodySmallRegular

  datatype Shape = Rounded(radius: nat) | Circle

  datatype Dimensions = Dimensions(top: nat, end: nat, bottom: Maybe<nat>, start: Maybe<nat>)

  datatype Background = Background(color: ColorToken, shape: Maybe<Shape>)

  datatype BorderStyle = BorderStyle(width: nat, color: ColorToken, shape: Maybe<Shape>)

  datatype Modifier =
    | Margin(dimensions: Dimensions)
    | Padding(dimensions: Dimensions)
    | Backdrop(background: Background)
    | Border(border: BorderStyle)
    | Height(size: nat)
    | Width(size: nat)
    | MinWidth(size: nat)
    | MinHeight(size: nat)
    | FillWidth(enabled: bool)
    | FillHeight(enabled: bool)

  datatype BoxProps = BoxProps(contentAlignment: Maybe<ContentAlignment>)

  datatype ColumnProps = ColumnProps(
    horizontalAlignment: Maybe<HorizontalAlignment>, verticalArrangement: Maybe<Arrangement>)

  datatype RowProps = RowProps(
    verticalAlignment: Maybe<VerticalAlignment>, horizontalArrangement: Maybe<Arrangement>)

  datatype TextProps = TextProps(style: Maybe<TypographyStyle>, color: Maybe<ColorToken>)

  datatype ButtonProps = ButtonProps(
    text: Text, variant: Maybe<ButtonVariant>, enabled: Maybe<bool>, loading: Maybe<bool>,
    clickAction: Maybe<Text>)

  datatype TextFieldProps = TextFieldProps(
    text: Text, placeholder: Maybe<Text>, fieldLabel: Maybe<Text>, enabled: Maybe<bool>,
    valueChangeAction: Maybe<Text>)

  datatype CustomRendererNode =
    | NilNode
    | StringNode(text: Text)
    | BoxNode(modifiers: seq<Modifier>, boxProps: BoxProps, children: seq<CustomRendererNode>)
    | ColumnNode(modifiers: seq<Modifier>, columnProps: ColumnProps, children: seq<CustomRendererNode>)
    | RowNode(modifiers: seq<Modifier>, rowProps: RowProps, children: seq<CustomRendererNode>)
    | SpacerNode(modifiers: seq<Modifier>, children: seq<CustomRendererNode>)
    | TextNode(modifiers: seq<Modifier>, textProps: TextProps, children: seq<CustomRendererNode>)
    | ButtonNode(modifiers: seq<Modifier>, buttonProps: ButtonProps, children: seq<CustomRendererNode>)
    | TextFieldNode(modifiers: seq<Modifier>, fieldProps: TextFieldProps, children: seq<CustomRendererNode>)

  // ---------------------------------------------------------------------------------------------
  // Converters without recursion
  // ---------------------------------------------------------------------------------------------

  // Cases in the order of their numbers on the wire.
  const COLOR_TOKENS: seq<ColorToken> := [
    FgPrimary, FgSecondary, FgTertiary, BgSurfaceMain, BgSurfaceContainer, BgSurfaceNested,
    FgSuccess, FgError, FgWarning]
  const CONTENT_ALIGNMENTS: seq<ContentAlignment> := [
    TopStart, TopCenter, TopEnd, CenterStart, Centered, CenterEnd,
    BottomStart, BottomCenter, BottomEnd]
  const HORIZONTAL_ALIGNMENTS: seq<HorizontalAlignment> := [AlignStart, AlignCenter, AlignEnd]
  const VERTICAL_ALIGNMENTS: seq<VerticalAlignment> := [AlignTop, AlignMiddle, AlignBottom]
  const ARRANGEMENTS: seq<Arrangement> := [
    ArrangeStart, ArrangeEnd, ArrangeCenter, SpaceBetween, SpaceAround, SpaceEvenly]
  const BUTTON_VARIANTS: seq<ButtonVariant> := [Primary, Secondary, TextOnly]
  const TYPOGRAPHY_STYLES: seq<TypographyStyle> := [
    HeadlineLarge, TitleMediumRegular, BodyLargeRegular, BodyMediumRegular, BodySmallRegular]

  const SIZE_CODEC: Codec<nat> := Uint(8)
  lemma SizeLawful()
    ensures Lawful(SIZE_CODEC)
  {
    UintLawful(8);
  }

  const COLOR_TOKEN_CODEC: Codec<ColorToken> := Enum(COLOR_TOKENS)
  const CONTENT_ALIGNMENT_CODEC: Codec<ContentAlignment> := Enum(CONTENT_ALIGNMENTS)
  const HORIZONTAL_ALIGNMENT_CODEC: Codec<HorizontalAlignment> := Enum(HORIZONTAL_ALIGNMENTS)
  const VERTICAL_ALIGNMENT_CODEC: Codec<VerticalAlignment> := Enum(VERTICAL_ALIGNMENTS)
  const ARRANGEMENT_CODEC: Codec<Arrangement> := Enum(ARRANGEMENTS)
  const BUTTON_VARIANT_CODEC: Codec<ButtonVariant> := Enum(BUTTON_VARIANTS)
  const TYPOGRAPHY_STYLE_CODEC: Codec<TypographyStyle> := Enum(TYPOGRAPHY_STYLES)

  lemma ColorTokenLawful()
    ensures Lawful(COLOR_TOKEN_CODEC)
  {
    forall v: ColorToken
      ensures v in COLOR_TOKENS
    {
      if v.FgPrimary? {}
    }
    EnumLawful(COLOR_TOKENS);
  }

  lemma ContentAlignmentLawful()
    ensures Lawful(CONTENT_ALIGNMENT_CODEC)
  {
    forall v: ContentAlignment
      ensures v in CONTENT_ALIGNMENTS
    {
      if v.TopStart? {}
    }
    EnumLawful(CONTENT_ALIGNMENTS);
  }

  lemma HorizontalAlignmentLawful()
    ensures Lawful(HORIZONTAL_ALIGNMENT_CODEC)
  {
    forall v: HorizontalAlignment
      ensures v in HORIZONTAL_ALIGNMENTS
    {
      if v.AlignStart? {}
    }
    EnumLawful(HORIZONTAL_ALIGNMENTS);
  }

  lemma VerticalAlignmentLawful()
    ensures Lawful(VERTICAL_ALIGNMENT_CODEC)
  {
    forall v: VerticalAlignment
      ensures v in VERTICAL_ALIGNMENTS
    {
      if v.AlignTop? {}
    }
    EnumLawful(VERTICAL_ALIGNMENTS);
  }

  lemma ArrangementLawful()
    ensures Lawful(ARRANGEMENT_CODEC)
  {
    forall v: Arrangement
      ensures v in ARRANGEMENTS
    {
      if v.ArrangeStart? {}
    }
    EnumLawful(ARRANGEMENTS);
  }

  lemma ButtonVariantLawful()
    ensures Lawful(BUTTON_VARIANT_CODEC)
  {
    forall v: ButtonVariant
      ensures v in BUTTON_VARIANTS
    {
      if v.Primary? {}
    }
    EnumLawful(BUTTON_VARIANTS);
  }

  lemma TypographyStyleLawful()
    ensures Lawful(TYPOGRAPHY_STYLE_CODEC)
  {
    forall v: TypographyStyle
      ensures v in TYPOGRAPHY_STYLES
    {
      if v.HeadlineLarge? {}
    }
    EnumLawful(TYPOGRAPHY_STYLES);
  }


  // Records: the fields are paired up in the order in which they are written.

  type DimensionsFields = ((nat, nat), (Maybe<nat>, Maybe<nat>))
  const DIMENSIONS_FIELDS_CODEC: Codec<DimensionsFields> :=
    Pair(Pair(SIZE_CODEC, SIZE_CODEC), Pair(Optional(SIZE_CODEC), Optional(SIZE_CODEC)))
  const DIMENSIONS := View(
    (f: DimensionsFields) => Dimensions(f.0.0, f.0.1, f.1.0, f.1.1),
    (v: Dimensions) => Some(((v.top, v.end), (v.bottom, v.start))))
  const DIMENSIONS_CODEC: Codec<Dimensions> := Record(DIMENSIONS_FIELDS_CODEC, DIMENSIONS)

  lemma DimensionsLawful()
    ensures Lawful(DIMENSIONS_CODEC)
  {
    hide Lawful;
    SizeLawful();
    OptionalLawful(SIZE_CODEC);
    PairLawful(SIZE_CODEC, SIZE_CODEC);
    PairLawful(Optional(SIZE_CODEC), Optional(SIZE_CODEC));
    PairLawful(Pair(SIZE_CODEC, SIZE_CODEC), Pair(Optional(SIZE_CODEC), Optional(SIZE_CODEC)));
    RecordLawful(DIMENSIONS_FIELDS_CODEC, DIMENSIONS);
  }

  function ShapeTag(v: Shape): (n: nat) { if v.Rounded? then 1 else 2 }

  const ROUNDED := View((r: nat) => Rounded(r), (v: Shape) => if v.Rounded? then Some(v.radius) else None)

  function ShapeCase(tag: nat): (c: Codec<Shape>) {
    if tag == 1 then Case(SIZE_CODEC, ROUNDED) else Constant(Circle)
  }

  const SHAPE_CODEC: Codec<Shape> := Variant(2, ShapeTag, ShapeCase)

  lemma ShapeLawful()
    ensures Lawful(SHAPE_CODEC)
  {
    hide Lawful, LawfulCase;
    SizeLawful();
    CaseLawful(SIZE_CODEC, ROUNDED, ShapeTag, 1);
    ConstantCaseLawful(Circle, ShapeTag, 2);
    VariantLawful(2, ShapeTag, ShapeCase);
  }

  type BackgroundFields = (ColorToken, Maybe<Shape>)
  const BACKGROUND_FIELDS_CODEC: Codec<BackgroundFields> := Pair(COLOR_TOKEN_CODEC, Optional(SHAPE_CODEC))
  const BACKGROUND := View((f: BackgroundFields) => Background(f.0, f.1), (v: Background) => Some((v.color, v.shape)))
  const BACKGROUND_CODEC: Codec<Background> := Record(BACKGROUND_FIELDS_CODEC, BACKGROUND)

  lemma BackgroundLawful()
    ensures Lawful(BACKGROUND_CODEC)
  {
    hide Lawful;
    ColorTokenLawful();
    ShapeLawful();
    OptionalLawful(SHAPE_CODEC);
    PairLawful(COLOR_TOKEN_CODEC, Optional(SHAPE_CODEC));
    RecordLawful(BACKGROUND_FIELDS_CODEC, BACKGROUND);
  }

  type BorderFields = (nat, (ColorToken, Maybe<Shape>))
  const BORDER_FIELDS_CODEC: Codec<BorderFields> := Pair(SIZE_CODEC, Pair(COLOR_TOKEN_CODEC, Optional(SHAPE_CODEC)))
  const BORDER := View(
    (f: BorderFields) => BorderStyle(f.0, f.1.0, f.1.1), (v: BorderStyle) => Some((v.width, (v.color, v.shape))))
  const BORDER_STYLE_CODEC: Codec<BorderStyle> := Record(BORDER_FIELDS_CODEC, BORDER)

  lemma BorderStyleLawful()
    ensures Lawful(BORDER_STYLE_CODEC)
  {
    hide Lawful;
    SizeLawful();
    ColorTokenLawful();
    ShapeLawful();
    OptionalLawful(SHAPE_CODEC);
    PairLawful(COLOR_TOKEN_CODEC, Optional(SHAPE_CODEC));
    PairLawful(SIZE_CODEC, Pair(COLOR_TOKEN_CODEC, Optional(SHAPE_CODEC)));
    RecordLawful(BORDER_FIELDS_CODEC, BORDER);
  }

  function ModifierTag(m: Modifier): (n: nat) {
    match m
    case Margin(_) => 1
    case Padding(_) => 2
    case Backdrop(_) => 3
    case Border(_) => 4
    case Height(_) => 5
    case Width(_) => 6
    case MinWidth(_) => 7
    case MinHeight(_) => 8
    case FillWidth(_) => 9
    case FillHeight(_) => 10
  }

  const MARGIN := View((x: Dimensions) => Margin(x), (m: Modifier) => if m.Margin? then Some(m.dimensions) else None)
  const PADDING := View((x: Dimensions) => Padding(x), (m: Modifier) => if m.Padding? then Some(m.dimensions) else None)
  const BACKDROP := View(
    (x: Background) => Backdrop(x), (m: Modifier) => if m.Backdrop? then Some(m.background) else None)
  const BORDERED := View((x: BorderStyle) => Border(x), (m: Modifier) => if m.Border? then Some(m.border) else None)
  const HEIGHT := View((x: nat) => Height(x), (m: Modifier) => if m.Height? then Some(m.size) else None)
  const WIDTH := View((x: nat) => Width(x), (m: Modifier) => if m.Width? then Some(m.size) else None)
  const MIN_WIDTH := View((x: nat) => MinWidth(x), (m: Modifier) => if m.MinWidth? then Some(m.size) else None)
  const MIN_HEIGHT := View((x: nat) => MinHeight(x), (m: Modifier) => if m.MinHeight? then Some(m.size) else None)
  const FILL_WIDTH := View((x: bool) => FillWidth(x), (m: Modifier) => if m.FillWidth? then Some(m.enabled) else None)
  const FILL_HEIGHT := View(
    (x: bool) => FillHeight(x), (m: Modifier) => if m.FillHeight? then Some(m.enabled) else None)

  const MARGIN_CODEC: Codec<Modifier> := Case(DIMENSIONS_CODEC, MARGIN)
  const PADDING_CODEC: Codec<Modifier> := Case(DIMENSIONS_CODEC, PADDING)
  const BACKDROP_CODEC: Codec<Modifier> := Case(BACKGROUND_CODEC, BACKDROP)
  const BORDER_CODEC: Codec<Modifier> := Case(BORDER_STYLE_CODEC, BORDERED)
  const HEIGHT_CODEC: Codec<Modifier> := Case(SIZE_CODEC, HEIGHT)
  const WIDTH_CODEC: Codec<Modifier> := Case(SIZE_CODEC, WIDTH)
  const MIN_WIDTH_CODEC: Codec<Modifier> := Case(SIZE_CODEC, MIN_WIDTH)
  const MIN_HEIGHT_CODEC: Codec<Modifier> := Case(SIZE_CODEC, MIN_HEIGHT)
  const FILL_WIDTH_CODEC: Codec<Modifier> := Case(BOOL_CODEC, FILL_WIDTH)
  const FILL_HEIGHT_CODEC: Codec<Modifier> := Case(BOOL_CODEC, FILL_HEIGHT)

  function ModifierCase(tag: nat): (c: Codec<Modifier>) {
    match tag
    case 1 => MARGIN_CODEC
    case 2 => PADDING_CODEC
    case 3 => BACKDROP_CODEC
    case 4 => BORDER_CODEC
    case 5 => HEIGHT_CODEC
    case 6 => WIDTH_CODEC
    case 7 => MIN_WIDTH_CODEC
    case 8 => MIN_HEIGHT_CODEC
    case 9 => FILL_WIDTH_CODEC
    case _ => FILL_HEIGHT_CODEC
  }

  const MODIFIER_CODEC: Codec<Modifier> := Variant(10, ModifierTag, ModifierCase)
  const MODIFIERS_CODEC: Codec<seq<Modifier>> := List(MODIFIER_CODEC)

  lemma BoxModifiersLawful()
    ensures LawfulCase(MARGIN_CODEC, ModifierTag, 1) && LawfulCase(PADDING_CODEC, ModifierTag, 2)
    ensures LawfulCase(BACKDROP_CODEC, ModifierTag, 3) && LawfulCase(BORDER_CODEC, ModifierTag, 4)
  {
    hide Lawful, LawfulCase, Case, Record, DIMENSIONS_CODEC, BACKGROUND_CODEC, BORDER_STYLE_CODEC, SIZE_CODEC,
         BOOL_CODEC;
    DimensionsLawful();
    BackgroundLawful();
    BorderStyleLawful();
    CaseLawful(DIMENSIONS_CODEC, MARGIN, ModifierTag, 1);
    CaseLawful(DIMENSIONS_CODEC, PADDING, ModifierTag, 2);
    CaseLawful(BACKGROUND_CODEC, BACKDROP, ModifierTag, 3);
    CaseLawful(BORDER_STYLE_CODEC, BORDERED, ModifierTag, 4);
  }

  lemma SizeModifiersLawful()
    ensures LawfulCase(HEIGHT_CODEC, ModifierTag, 5) && LawfulCase(WIDTH_CODEC, ModifierTag, 6)
    ensures LawfulCase(MIN_WIDTH_CODEC, ModifierTag, 7) && LawfulCase(MIN_HEIGHT_CODEC, ModifierTag, 8)
  {
    hide Lawful, LawfulCase, Case, Record, DIMENSIONS_CODEC, BACKGROUND_CODEC, BORDER_STYLE_CODEC, SIZE_CODEC,
         BOOL_CODEC;
    SizeLawful();
    CaseLawful(SIZE_CODEC, HEIGHT, ModifierTag, 5);
    CaseLawful(SIZE_CODEC, WIDTH, ModifierTag, 6);
    CaseLawful(SIZE_CODEC, MIN_WIDTH, ModifierTag, 7);
    CaseLawful(SIZE_CODEC, MIN_HEIGHT, ModifierTag, 8);
  }

  lemma FillModifiersLawful()
    ensures LawfulCase(FILL_WIDTH_CODEC, ModifierTag, 9) && LawfulCase(FILL_HEIGHT_CODEC, ModifierTag, 10)
  {
    hide Lawful, LawfulCase, Case, Record, DIMENSIONS_CODEC, BACKGROUND_CODEC, BORDER_STYLE_CODEC, SIZE_CODEC,
         BOOL_CODEC;
    BoolLawful();
    CaseLawful(BOOL_CODEC, FILL_WIDTH, ModifierTag, 9);
    CaseLawful(BOOL_CODEC, FILL_HEIGHT, ModifierTag, 10);
  }

  lemma ModifierCaseLawful(tag: nat)
    requires 1 <= tag <= 10
    ensures LawfulCase(ModifierCase(tag), ModifierTag, tag)
  {
    hide Lawful, LawfulCase, ModifierTag, Case, MARGIN_CODEC, PADDING_CODEC, BACKDROP_CODEC, BORDER_CODEC,
         HEIGHT_CODEC, WIDTH_CODEC, MIN_WIDTH_CODEC, MIN_HEIGHT_CODEC, FILL_WIDTH_CODEC, FILL_HEIGHT_CODEC;
    BoxModifiersLawful();
    SizeModifiersLawful();
    FillModifiersLawful();
  }

  lemma ModifierLawful()
    ensures Lawful(MODIFIER_CODEC) && Lawful(MODIFIERS_CODEC)
  {
    hide Lawful, LawfulCase, ModifierTag, ModifierCase;
    forall tag: nat | 1 <= tag <= 10
      ensures LawfulCase(ModifierCase(tag), ModifierTag, tag)
    {
      ModifierCaseLawful(tag);
    }
    VariantLawful(10, ModifierTag, ModifierCase);
    ListLawful(MODIFIER_CODEC);
  }

  const BOX_PROPS := View((f: Maybe<ContentAlignment>) => BoxProps(f), (v: BoxProps) => Some(v.contentAlignment))
  const BOX_PROPS_CODEC: Codec<BoxProps> := Record(Optional(CONTENT_ALIGNMENT_CODEC), BOX_PROPS)

  type ColumnFields = (Maybe<HorizontalAlignment>, Maybe<Arrangement>)
  const COLUMN_FIELDS_CODEC: Codec<ColumnFields> :=
    Pair(Optional(HORIZONTAL_ALIGNMENT_CODEC), Optional(ARRANGEMENT_CODEC))
  const COLUMN_PROPS := View(
    (f: ColumnFields) => ColumnProps(f.0, f.1),
    (v: ColumnProps) => Some((v.horizontalAlignment, v.verticalArrangement)))
  const COLUMN_PROPS_CODEC: Codec<ColumnProps> := Record(COLUMN_FIELDS_CODEC, COLUMN_PROPS)

  type RowFields = (Maybe<VerticalAlignment>, Maybe<Arrangement>)
  const ROW_FIELDS_CODEC: Codec<RowFields> := Pair(Optional(VERTICAL_ALIGNMENT_CODEC), Optional(ARRANGEMENT_CODEC))
  const ROW_PROPS := View(
    (f: RowFields) => RowProps(f.0, f.1), (v: RowProps) => Some((v.verticalAlignment, v.horizontalArrangement)))
  const ROW_PROPS_CODEC: Codec<RowProps> := Record(ROW_FIELDS_CODEC, ROW_PROPS)

  type TextFields = (Maybe<TypographyStyle>, Maybe<ColorToken>)
  const TEXT_FIELDS_CODEC: Codec<TextFields> := Pair(Optional(TYPOGRAPHY_STYLE_CODEC), Optional(COLOR_TOKEN_CODEC))
  const TEXT_PROPS := View((f: TextFields) => TextProps(f.0, f.1), (v: TextProps) => Some((v.style, v.color)))
  const TEXT_PROPS_CODEC: Codec<TextProps> := Record(TEXT_FIELDS_CODEC, TEXT_PROPS)

  lemma LayoutPropsLawful()
    ensures Lawful(BOX_PROPS_CODEC) && Lawful(COLUMN_PROPS_CODEC) && Lawful(ROW_PROPS_CODEC) && Lawful(TEXT_PROPS_CODEC)
  {
    hide Lawful;
    ContentAlignmentLawful();
    OptionalLawful(CONTENT_ALIGNMENT_CODEC);
    RecordLawful(Optional(CONTENT_ALIGNMENT_CODEC), BOX_PROPS);
    ArrangementLawful();
    OptionalLawful(ARRANGEMENT_CODEC);
    HorizontalAlignmentLawful();
    OptionalLawful(HORIZONTAL_ALIGNMENT_CODEC);
    PairLawful(Optional(HORIZONTAL_ALIGNMENT_CODEC), Optional(ARRANGEMENT_CODEC));
    RecordLawful(COLUMN_FIELDS_CODEC, COLUMN_PROPS);
    VerticalAlignmentLawful();
    OptionalLawful(VERTICAL_ALIGNMENT_CODEC);
    PairLawful(Optional(VERTICAL_ALIGNMENT_CODEC), Optional(ARRANGEMENT_CODEC));
    RecordLawful(ROW_FIELDS_CODEC, ROW_PROPS);
    TypographyStyleLawful();
    OptionalLawful(TYPOGRAPHY_STYLE_CODEC);
    ColorTokenLawful();
    OptionalLawful(COLOR_TOKEN_CODEC);
    PairLawful(Optional(TYPOGRAPHY_STYLE_CODEC), Optional(COLOR_TOKEN_CODEC));
    RecordLawful(TEXT_FIELDS_CODEC, TEXT_PROPS);
  }

  type ButtonFields = ((Text, Maybe<ButtonVariant>), ((Maybe<bool>, Maybe<bool>), Maybe<Text>))
  const BUTTON_FIELDS_CODEC: Codec<ButtonFields> := Pair(
    Pair(STRING_CODEC, Optional(BUTTON_VARIANT_CODEC)),
    Pair(Pair(Optional(BOOL_CODEC), Optional(BOOL_CODEC)), Optional(STRING_CODEC)))
  const BUTTON_PROPS := View(
    (f: ButtonFields) => ButtonProps(f.0.0, f.0.1, f.1.0.0, f.1.0.1, f.1.1),
    (v: ButtonProps) => Some(((v.text, v.variant), ((v.enabled, v.loading), v.clickAction))))
  const BUTTON_PROPS_CODEC: Codec<ButtonProps> := Record(BUTTON_FIELDS_CODEC, BUTTON_PROPS)

  lemma ButtonPropsLawful()
    ensures Lawful(BUTTON_PROPS_CODEC)
  {
    hide Lawful;
    StringLawful();
    OptionalLawful(STRING_CODEC);
    BoolLawful();
    OptionalLawful(BOOL_CODEC);
    ButtonVariantLawful();
    OptionalLawful(BUTTON_VARIANT_CODEC);
    PairLawful(STRING_CODEC, Optional(BUTTON_VARIANT_CODEC));
    PairLawful(Optional(BOOL_CODEC), Optional(BOOL_CODEC));
    PairLawful(Pair(Optional(BOOL_CODEC), Optional(BOOL_CODEC)), Optional(STRING_CODEC));
    PairLawful(
      Pair(STRING_CODEC, Optional(BUTTON_VARIANT_CODEC)),
      Pair(Pair(Optional(BOOL_CODEC), Optional(BOOL_CODEC)), Optional(STRING_CODEC)));
    RecordLawful(BUTTON_FIELDS_CODEC, BUTTON_PROPS);
  }

  type InputFields = ((Text, Maybe<Text>), ((Maybe<Text>, Maybe<bool>), Maybe<Text>))
  const INPUT_FIELDS_CODEC: Codec<InputFields> := Pair(
    Pair(STRING_CODEC, Optional(STRING_CODEC)),
    Pair(Pair(Optional(STRING_CODEC), Optional(BOOL_CODEC)), Optional(STRING_CODEC)))
  const TEXT_FIELD_PROPS := View(
    (f: InputFields) => TextFieldProps(f.0.0, f.0.1, f.1.0.0, f.1.0.1, f.1.1),
    (v: TextFieldProps) => Some(((v.text, v.placeholder), ((v.fieldLabel, v.enabled), v.valueChangeAction))))
  const TEXT_FIELD_PROPS_CODEC: Codec<TextFieldProps> := Record(INPUT_FIELDS_CODEC, TEXT_FIELD_PROPS)

  lemma TextFieldPropsLawful()
    ensures Lawful(TEXT_FIELD_PROPS_CODEC)
  {
    hide Lawful;
    StringLawful();
    OptionalLawful(STRING_CODEC);
    BoolLawful();
    OptionalLawful(BOOL_CODEC);
    PairLawful(STRING_CODEC, Optional(STRING_CODEC));
    PairLawful(Optional(STRING_CODEC), Optional(BOOL_CODEC));
    PairLawful(Pair(Optional(STRING_CODEC), Optional(BOOL_CODEC)), Optional(STRING_CODEC));
    PairLawful(
      Pair(STRING_CODEC, Optional(STRING_CODEC)),
      Pair(Pair(Optional(STRING_CODEC), Optional(BOOL_CODEC)), Optional(STRING_CODEC)));
    RecordLawful(INPUT_FIELDS_CODEC, TEXT_FIELD_PROPS);
  }

  // ---------------------------------------------------------------------------------------------
  // Heads: all of a node but its children, which every case writes last
  // ---------------------------------------------------------------------------------------------

  datatype Head =
    | NilHead
    | StringHead(text: Text)
    | BoxHead(modifiers: seq<Modifier>, boxProps: BoxProps)
    | ColumnHead(modifiers: seq<Modifier>, columnProps: ColumnProps)
    | RowHead(modifiers: seq<Modifier>, rowProps: RowProps)
    | SpacerHead(modifiers: seq<Modifier>)
    | TextHead(modifiers: seq<Modifier>, textProps: TextProps)
    | ButtonHead(modifiers: seq<Modifier>, buttonProps: ButtonProps)
    | TextFieldHead(modifiers: seq<Modifier>, fieldProps: TextFieldProps)

  function HeadTag(h: Head): (n: nat) {
    match h
    case NilHead => 1
    case StringHead(_) => 2
    case BoxHead(_, _) => 3
    case ColumnHead(_, _) => 4
    case RowHead(_, _) => 5
    case SpacerHead(_) => 6
    case TextHead(_, _) => 7
    case ButtonHead(_, _) => 8
    case TextFieldHead(_, _) => 9
  }

  const STRING := View((t: Text) => StringHead(t), (h: Head) => if h.StringHead? then Some(h.text) else None)
  const BOX := View(
    (f: (seq<Modifier>, BoxProps)) => BoxHead(f.0, f.1),
    (h: Head) => if h.BoxHead? then Some((h.modifiers, h.boxProps)) else None)
  const COLUMN := View(
    (f: (seq<Modifier>, ColumnProps)) => ColumnHead(f.0, f.1),
    (h: Head) => if h.ColumnHead? then Some((h.modifiers, h.columnProps)) else None)
  const ROW := View(
    (f: (seq<Modifier>, RowProps)) => RowHead(f.0, f.1),
    (h: Head) => if h.RowHead? then Some((h.modifiers, h.rowProps)) else None)
  const SPACER := View(
    (m: seq<Modifier>) => SpacerHead(m), (h: Head) => if h.SpacerHead? then Some(h.modifiers) else None)
  const TEXT := View(
    (f: (seq<Modifier>, TextProps)) => TextHead(f.0, f.1),
    (h: Head) => if h.TextHead? then Some((h.modifiers, h.textProps)) else None)
  const BUTTON := View(
    (f: (seq<Modifier>, ButtonProps)) => ButtonHead(f.0, f.1),
    (h: Head) => if h.ButtonHead? then Some((h.modifiers, h.buttonProps)) else None)
  const TEXT_FIELD := View(
    (f: (seq<Modifier>, TextFieldProps)) => TextFieldHead(f.0, f.1),
    (h: Head) => if h.TextFieldHead? then Some((h.modifiers, h.fieldProps)) else None)

  const NIL_HEAD_CODEC: Codec<Head> := Constant(NilHead)
  const STRING_HEAD_CODEC: Codec<Head> := Case(STRING_CODEC, STRING)
  const BOX_HEAD_CODEC: Codec<Head> := Case(Pair(MODIFIERS_CODEC, BOX_PROPS_CODEC), BOX)
  const COLUMN_HEAD_CODEC: Codec<Head> := Case(Pair(MODIFIERS_CODEC, COLUMN_PROPS_CODEC), COLUMN)
  const ROW_HEAD_CODEC: Codec<Head> := Case(Pair(MODIFIERS_CODEC, ROW_PROPS_CODEC), ROW)
  const SPACER_HEAD_CODEC: Codec<Head> := Case(MODIFIERS_CODEC, SPACER)
  const TEXT_HEAD_CODEC: Codec<Head> := Case(Pair(MODIFIERS_CODEC, TEXT_PROPS_CODEC), TEXT)
  const BUTTON_HEAD_CODEC: Codec<Head> := Case(Pair(MODIFIERS_CODEC, BUTTON_PROPS_CODEC), BUTTON)
  const TEXT_FIELD_HEAD_CODEC: Codec<Head> := Case(Pair(MODIFIERS_CODEC, TEXT_FIELD_PROPS_CODEC), TEXT_FIELD)

  function HeadCase(tag: nat): (c: Codec<Head>) {
    match tag
    case 1 => NIL_HEAD_CODEC
    case 2 => STRING_HEAD_CODEC
    case 3 => BOX_HEAD_CODEC
    case 4 => COLUMN_HEAD_CODEC
    case 5 => ROW_HEAD_CODEC
    case 6 => SPACER_HEAD_CODEC
    case 7 => TEXT_HEAD_CODEC
    case 8 => BUTTON_HEAD_CODEC
    case _ => TEXT_FIELD_HEAD_CODEC
  }

  const HEAD_CODEC: Codec<Head> := Variant(9, HeadTag, HeadCase)

  lemma PropsCaseLawful<P(!new)>(props: Codec<P>, view: View<(seq<Modifier>, P), Head>, tag: nat)
    requires Lawful(props) && Faithful(view, HeadTag, tag)
    ensures LawfulCase(Case(Pair(MODIFIERS_CODEC, props), view), HeadTag, tag)
  {
    hide Lawful, LawfulCase;
    ModifierLawful();
    PairLawful(MODIFIERS_CODEC, props);
    CaseLawful(Pair(MODIFIERS_CODEC, props), view, HeadTag, tag);
  }

  lemma PayloadsLawful()
    ensures Lawful(STRING_CODEC) && Lawful(MODIFIERS_CODEC)
    ensures Lawful(BOX_PROPS_CODEC) && Lawful(COLUMN_PROPS_CODEC) && Lawful(ROW_PROPS_CODEC)
    ensures Lawful(TEXT_PROPS_CODEC) && Lawful(BUTTON_PROPS_CODEC) && Lawful(TEXT_FIELD_PROPS_CODEC)
  {
    hide *;
    StringLawful();
    ModifierLawful();
    LayoutPropsLawful();
    ButtonPropsLawful();
    TextFieldPropsLawful();
  }

  lemma BoxHeadsLawful()
    ensures LawfulCase(BOX_HEAD_CODEC, HeadTag, 3) && LawfulCase(SPACER_HEAD_CODEC, HeadTag, 6)
  {
    hide Lawful, LawfulCase, Pair, List, Case, Record, MODIFIERS_CODEC, MODIFIER_CODEC, BOX_PROPS_CODEC,
         COLUMN_PROPS_CODEC, ROW_PROPS_CODEC, TEXT_PROPS_CODEC, BUTTON_PROPS_CODEC, TEXT_FIELD_PROPS_CODEC,
         STRING_CODEC;
    PayloadsLawful();
    PropsCaseLawful(BOX_PROPS_CODEC, BOX, 3);
    CaseLawful(MODIFIERS_CODEC, SPACER, HeadTag, 6);
  }

  lemma LineHeadsLawful()
    ensures LawfulCase(COLUMN_HEAD_CODEC, HeadTag, 4) && LawfulCase(ROW_HEAD_CODEC, HeadTag, 5)
  {
    hide Lawful, LawfulCase, Pair, List, Case, Record, MODIFIERS_CODEC, MODIFIER_CODEC, BOX_PROPS_CODEC,
         COLUMN_PROPS_CODEC, ROW_PROPS_CODEC, TEXT_PROPS_CODEC, BUTTON_PROPS_CODEC, TEXT_FIELD_PROPS_CODEC,
         STRING_CODEC;
    PayloadsLawful();
    PropsCaseLawful(COLUMN_PROPS_CODEC, COLUMN, 4);
    PropsCaseLawful(ROW_PROPS_CODEC, ROW, 5);
  }

  lemma TextHeadsLawful()
    ensures LawfulCase(NIL_HEAD_CODEC, HeadTag, 1) && LawfulCase(STRING_HEAD_CODEC, HeadTag, 2)
    ensures LawfulCase(TEXT_HEAD_CODEC, HeadTag, 7)
  {
    hide Lawful, LawfulCase, Pair, List, Case, Record, MODIFIERS_CODEC, MODIFIER_CODEC, BOX_PROPS_CODEC,
         COLUMN_PROPS_CODEC, ROW_PROPS_CODEC, TEXT_PROPS_CODEC, BUTTON_PROPS_CODEC, TEXT_FIELD_PROPS_CODEC,
         STRING_CODEC;
    PayloadsLawful();
    ConstantCaseLawful(NilHead, HeadTag, 1);
    CaseLawful(STRING_CODEC, STRING, HeadTag, 2);
    PropsCaseLawful(TEXT_PROPS_CODEC, TEXT, 7);
  }

  lemma InputHeadsLawful()
    ensures LawfulCase(BUTTON_HEAD_CODEC, HeadTag, 8) && LawfulCase(TEXT_FIELD_HEAD_CODEC, HeadTag, 9)
  {
    hide Lawful, LawfulCase, Pair, List, Case, Record, MODIFIERS_CODEC, MODIFIER_CODEC, BOX_PROPS_CODEC,
         COLUMN_PROPS_CODEC, ROW_PROPS_CODEC, TEXT_PROPS_CODEC, BUTTON_PROPS_CODEC, TEXT_FIELD_PROPS_CODEC,
         STRING_CODEC;
    PayloadsLawful();
    PropsCaseLawful(BUTTON_PROPS_CODEC, BUTTON, 8);
    PropsCaseLawful(TEXT_FIELD_PROPS_CODEC, TEXT_FIELD, 9);
  }

  lemma HeadCaseLawful(tag: nat)
    requires 1 <= tag <= 9
    ensures LawfulCase(HeadCase(tag), HeadTag, tag)
  {
    hide Lawful, LawfulCase, HeadTag, Case, NIL_HEAD_CODEC, STRING_HEAD_CODEC, BOX_HEAD_CODEC, COLUMN_HEAD_CODEC,
         ROW_HEAD_CODEC, SPACER_HEAD_CODEC, TEXT_HEAD_CODEC, BUTTON_HEAD_CODEC, TEXT_FIELD_HEAD_CODEC;
    match tag
    case 1 | 2 | 7 => TextHeadsLawful();
    case 3 | 6 => BoxHeadsLawful();
    case 4 | 5 => LineHeadsLawful();
    case 8 | 9 => InputHeadsLawful();
  }

  lemma HeadLawful()
    ensures Lawful(HEAD_CODEC)
  {
    hide Lawful, LawfulCase, HeadTag, HeadCase;
    forall tag: nat | 1 <= tag <= 9
      ensures LawfulCase(HeadCase(tag), HeadTag, tag)
    {
      HeadCaseLawful(tag);
    }
    VariantLawful(9, HeadTag, HeadCase);
  }
}
