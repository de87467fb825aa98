/** The playground page, src/app/page.tsx: its own label counter, the effect
    that keeps the label index within the count, the preview request and the
    form's validation rules. */
module Playground {
  import opened Wrappers
  import opened Patterns
  import opened LabelCount
  import opened Splitting
  import opened Preview

  /** countLabels: the ^XA count without the ~DGR: rule of the server. */
  function CountLabels(zpl: string): nat {
    var standaloneXa := Count(StandaloneXa, zpl);
    if standaloneXa > 0 then standaloneXa
    else
      match FirstPqValue(zpl)
      case Some(n) => n
      case None => 1
  }

  /** The label starts not followed by ^QA or ^MMT are the count whenever there
      is one; otherwise the first ^PQ argument, otherwise one. */
  lemma CountLabelsRules(zpl: string)
    ensures Occurrences(StandaloneXa, zpl) > 0 ==> CountLabels(zpl) == Occurrences(StandaloneXa, zpl)
    ensures Occurrences(StandaloneXa, zpl) == 0 ==>
      CountLabels(zpl) == (match FirstPqValue(zpl) case Some(n) => n case None => 1)
  {
    MarkersDoNotOverlap();
    CountIsOccurrences(StandaloneXa, zpl);
  }

  /** On a text without graphic downloads the page and the server count alike. */
  lemma AgreesWithServerWithoutDgr(zpl: string)
    requires Occurrences(Dgr, zpl) == 0
    ensures CountLabels(zpl) == CountLabelsInZpl(zpl)
  {
    CountLabelsRules(zpl);
    LabelCount.CountLabelsRules(zpl);
  }

  /** With graphic downloads the server counts them and the page does not look
      at them: the two differ as soon as the ^XA count is another number. */
  lemma DiffersWithDgr(zpl: string)
    requires Occurrences(Dgr, zpl) > 0 && Occurrences(StandaloneXa, zpl) > 0
    requires Occurrences(StandaloneXa, zpl) != Occurrences(Dgr, zpl)
    ensures CountLabels(zpl) != CountLabelsInZpl(zpl)
  {
    CountLabelsRules(zpl);
    DgrDecides(zpl);
  }

  /** The part of the page's state the clamp effect reads and sets. */
  datatype ViewState = ViewState(totalLabels: nat, currentLabelIndex: int)

  /** The effect on the text: the total is the count, or 1 when the count is
      zero; the index goes back to 1 when it is past that. */
  function Clamp(zpl: string, s: ViewState): (t: ViewState) {
    var labelCount := CountLabels(zpl);
    var total := if labelCount > 0 then labelCount else 1;
    ViewState(total, if s.currentLabelIndex > total then 1 else s.currentLabelIndex)
  }

  /** The total is never below one; it is the count whenever the count is
      positive; the index is reset to 1 exactly when it exceeded the total and
      is otherwise kept. */
  lemma ClampRules(zpl: string, s: ViewState)
    ensures Clamp(zpl, s).totalLabels >= 1
    ensures CountLabels(zpl) > 0 ==> Clamp(zpl, s).totalLabels == CountLabels(zpl)
    ensures s.currentLabelIndex > Clamp(zpl, s).totalLabels ==> Clamp(zpl, s).currentLabelIndex == 1
    ensures s.currentLabelIndex <= Clamp(zpl, s).totalLabels ==>
      Clamp(zpl, s).currentLabelIndex == s.currentLabelIndex
  {
  }

  /** After the effect a positive index lies between 1 and the total. */
  lemma ClampInRange(zpl: string, s: ViewState)
    requires s.currentLabelIndex >= 1
    ensures 1 <= Clamp(zpl, s).currentLabelIndex <= Clamp(zpl, s).totalLabels
  {
    ClampRules(zpl, s);
  }

  /** The effect re-runs when the index it set changes; the second run changes
      nothing. */
  lemma ClampIdempotent(zpl: string, s: ViewState)
    ensures Clamp(zpl, Clamp(zpl, s)) == Clamp(zpl, s)
  {
    ClampRules(zpl, s);
    ClampRules(zpl, Clamp(zpl, s));
  }

  /** handleRender: whatever label index it is given, it shows label 1 and asks
      the server for label 1, which is the whole text for at most 16 labels and
      otherwise the first chunk at index 1. */
  method HandleRender(zpl: string, labelIndex: int) returns (body: string, index: int, currentLabelIndex: int)
    ensures currentLabelIndex == 1 && index == 1
    ensures CountLabelsInZpl(zpl) <= PreviewChunkSize ==> body == zpl
    ensures CountLabelsInZpl(zpl) > PreviewChunkSize && Occurrences(Dgr, zpl) == 0 ==> body == []
    ensures CountLabelsInZpl(zpl) > PreviewChunkSize && Occurrences(Dgr, zpl) > 0 ==>
      0 < |Chunked(ChunkLabels(zpl), PreviewChunkSize)|
      && body == Chunked(ChunkLabels(zpl), PreviewChunkSize)[0]
  {
    currentLabelIndex := 1;
    body, index := PreviewTarget(zpl, 1);
  }

  /** The fields of the form. */
  datatype Field = ZplField | DpiField | WidthField | HeightField | UnitField | OrientationField

  /** What the form submits; numbers are JavaScript numbers. */
  datatype FormInput = FormInput(zpl: string, dpi: real, width: real, height: real,
                                 unit: string, orientation: string)

  /** The rule of each field: a non-empty text, an integer dpi, a positive
      width and height, a unit of "in" or "mm", an orientation of "0" or "90". */
  predicate FieldOk(field: Field, f: FormInput) {
    match field
    case ZplField => |f.zpl| >= 1
    case DpiField => f.dpi.Floor as real == f.dpi
    case WidthField => f.width > 0.0
    case HeightField => f.height > 0.0
    case UnitField => f.unit == "in" || f.unit == "mm"
    case OrientationField => f.orientation == "0" || f.orientation == "90"
  }

  /** The page's schema and the server's declare the same fields with the same
      rules, in different orders. */
  const PageSchema: seq<Field> :=
    [ZplField, DpiField, WidthField, HeightField, UnitField, OrientationField]
  const ServerSchema: seq<Field> :=
    [ZplField, DpiField, WidthField, HeightField, OrientationField, UnitField]

  /** The fields whose rule fails, in schema order. */
  function Issues(schema: seq<Field>, f: FormInput): (issues: seq<Field>)
    ensures forall x :: x in issues <==> x in schema && !FieldOk(x, f)
    ensures |issues| <= |schema|
  {
    if schema == [] then []
    else (if FieldOk(schema[0], f) then [] else [schema[0]]) + Issues(schema[1..], f)
  }

  /** Each schema declares every field. */
  lemma SchemasDeclareEveryField(x: Field)
    ensures x in PageSchema && x in ServerSchema
  {
    match x {
      case ZplField => assert PageSchema[0] == x && ServerSchema[0] == x;
      case DpiField => assert PageSchema[1] == x && ServerSchema[1] == x;
      case WidthField => assert PageSchema[2] == x && ServerSchema[2] == x;
      case HeightField => assert PageSchema[3] == x && ServerSchema[3] == x;
      case UnitField => assert PageSchema[4] == x && ServerSchema[5] == x;
      case OrientationField => assert PageSchema[5] == x && ServerSchema[4] == x;
    }
  }

  /** No issue means every declared field keeps its rule. */
  lemma NoIssues(schema: seq<Field>, f: FormInput)
    ensures Issues(schema, f) == [] <==> forall x :: x in schema ==> FieldOk(x, f)
  {
    if Issues(schema, f) != [] {
      assert Issues(schema, f)[0] in Issues(schema, f);
    }
  }

  /** A submission is accepted exactly when every field keeps its rule. */
  lemma AcceptedInput(f: FormInput)
    ensures Issues(PageSchema, f) == [] <==>
      |f.zpl| >= 1 && f.dpi.Floor as real == f.dpi && f.width > 0.0 && f.height > 0.0
      && (f.unit == "in" || f.unit == "mm") && (f.orientation == "0" || f.orientation == "90")
  {
    NoIssues(PageSchema, f);
    forall x: Field
      ensures x in PageSchema
    {
      SchemasDeclareEveryField(x);
    }
    if FieldOk(ZplField, f) && FieldOk(DpiField, f) && FieldOk(WidthField, f)
      && FieldOk(HeightField, f) && FieldOk(UnitField, f) && FieldOk(OrientationField, f)
    {
      forall x: Field
        ensures FieldOk(x, f)
      {
        match x {
          case ZplField =>
          case DpiField =>
          case WidthField =>
          case HeightField =>
          case UnitField =>
          case OrientationField =>
        }
      }
    }
  }

  /** Both schemas reject a submission for the same fields, so they accept the
      same submissions. */
  lemma SchemasAgree(f: FormInput)
    ensures forall x :: x in Issues(PageSchema, f) <==> x in Issues(ServerSchema, f)
    ensures Issues(PageSchema, f) == [] <==> Issues(ServerSchema, f) == []
  {
    forall x: Field
      ensures x in Issues(PageSchema, f) <==> x in Issues(ServerSchema, f)
    {
      SchemasDeclareEveryField(x);
    }
    if Issues(PageSchema, f) != [] {
      assert Issues(PageSchema, f)[0] in Issues(ServerSchema, f);
    }
    if Issues(ServerSchema, f) != [] {
      assert Issues(ServerSchema, f)[0] in Issues(PageSchema, f);
    }
  }
}
