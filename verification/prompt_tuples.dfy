/** The tuple block of a prompt: the count line, a header naming the columns
    and one entry per row, in the XML, Markdown or JSON tuple format
    (`PromptManager::ConstructInputTuples*`). Column labels are the column's
    `name` when it is a string, and `COLUMN k` otherwise, where `k` counts the
    unnamed columns only. */
module PromptTuples {
  import opened Wrappers
  import opened Json
  import opened Columns
  import opened Text

  datatype TupleFormat = XML | JSON | Markdown

  /** `stringToTupleFormat`, whose body is not part of this model: `None`
      stands for a string outside the `TUPLE_FORMAT` table. */
  type FormatParser = string -> Option<TupleFormat>

  /** How many of the columns before position `i` have no string name. */
  function UnnamedBefore(cols: Batch, i: nat): (k: nat)
    requires i <= |cols|
    ensures k <= i
  {
    if i == 0 then 0
    else UnnamedBefore(cols, i - 1) + (if NameOf(cols[i - 1]).Some? then 0 else 1)
  }

  /** The label the builders give column `i`. */
  function Label(cols: Batch, i: nat): (l: string)
    requires i < |cols|
  {
    match NameOf(cols[i])
    case Some(n) => n
    case None => "COLUMN " + NatToString(UnnamedBefore(cols, i) + 1)
  }

  lemma {:induction false} UnnamedMonotone(cols: Batch, i: nat, j: nat)
    requires i <= j <= |cols|
    ensures UnnamedBefore(cols, i) <= UnnamedBefore(cols, j)
    decreases j - i
  {
    if i < j {
      UnnamedMonotone(cols, i, j - 1);
    }
  }

  /** Two different unnamed columns never share a label. */
  lemma UnnamedLabelsDistinct(cols: Batch, i: nat, j: nat)
    requires i < j < |cols| && NameOf(cols[i]).None? && NameOf(cols[j]).None?
    ensures Label(cols, i) != Label(cols, j)
  {
    UnnamedMonotone(cols, i + 1, j);
    var a := NatToString(UnnamedBefore(cols, i) + 1);
    var b := NatToString(UnnamedBefore(cols, j) + 1);
    NatToStringInjective(UnnamedBefore(cols, i) + 1, UnnamedBefore(cols, j) + 1);
    assert ("COLUMN " + a)[7..] == a;
    assert ("COLUMN " + b)[7..] == b;
  }

  /** The unnamed columns are numbered densely: every `k` from 1 to their
      number labels one of them. */
  lemma {:induction false} UnnamedDense(cols: Batch, n: nat, k: nat)
    requires n <= |cols| && 1 <= k <= UnnamedBefore(cols, n)
    ensures exists i :: 0 <= i < n && NameOf(cols[i]).None? && UnnamedBefore(cols, i) + 1 == k
  {
    if k <= UnnamedBefore(cols, n - 1) {
      UnnamedDense(cols, n - 1, k);
    } else {
      assert NameOf(cols[n - 1]).None? && UnnamedBefore(cols, n - 1) + 1 == k;
    }
  }

  // ---------------------------------------------------------------- headers

  function XmlCell(text: string): (r: string) {
    "<column>" + text + "</column>"
  }

  /** The header cells of the first `i` columns. */
  function XmlCells(cols: Batch, i: nat): (r: string)
    requires i <= |cols|
  {
    if i == 0 then "" else XmlCells(cols, i - 1) + XmlCell(Label(cols, i - 1))
  }

  function XmlHeader(cols: Batch): (r: string) {
    if |cols| == 0 then "<header></header>\n"
    else "<header>" + XmlCells(cols, |cols|) + "</header>\n"
  }

  /** `ConstructInputTuplesHeaderXML`: keeps a running counter of unnamed
      columns, which always equals the reference numbering. */
  method ConstructHeaderXml(cols: Batch) returns (header: string)
    ensures header == XmlHeader(cols)
  {
    if |cols| == 0 {
      return "<header></header>\n";
    }
    var cells := "";
    var idx: nat := 1;
    var i := 0;
    while i < |cols|
      invariant i <= |cols|
      invariant cells == XmlCells(cols, i)
      invariant idx == UnnamedBefore(cols, i) + 1
    {
      var name: string;
      match NameOf(cols[i]) {
        case Some(n) =>
          name := n;
        case None =>
          name := "COLUMN " + NatToString(idx);
          idx := idx + 1;
      }
      cells := cells + XmlCell(name);
      i := i + 1;
    }
    header := "<header>" + cells + "</header>\n";
  }

  /** The top-row text of column `i` in the Markdown header: a named column
      is shown as `COLUMN_<name>`, an unnamed one by its label. */
  function TopLabel(cols: Batch, i: nat): (l: string)
    requires i < |cols|
  {
    match NameOf(cols[i])
    case Some(n) => "COLUMN_" + n
    case None => Label(cols, i)
  }

  /** The dash run under a column is as long as its label, so it is seven
      characters shorter than the top-row text of a named column. */
  lemma RuleWidth(cols: Batch, i: nat)
    requires i < |cols|
    ensures |TopLabel(cols, i)| == |Label(cols, i)| + (if NameOf(cols[i]).Some? then 7 else 0)
  {
  }

  function MarkdownCell(text: string): (r: string) {
    text + " | "
  }

  function MarkdownTop(cols: Batch, i: nat): (r: string)
    requires i <= |cols|
  {
    if i == 0 then "" else MarkdownTop(cols, i - 1) + MarkdownCell(TopLabel(cols, i - 1))
  }

  function MarkdownRule(cols: Batch, i: nat): (r: string)
    requires i <= |cols|
  {
    if i == 0 then "" else MarkdownRule(cols, i - 1) + MarkdownCell(Repeat('-', |Label(cols, i - 1)|))
  }

  function MarkdownHeader(cols: Batch): (r: string) {
    if |cols| == 0 then " | Empty | \n | ----- | \n"
    else " | " + MarkdownTop(cols, |cols|) + "\n | " + MarkdownRule(cols, |cols|) + "\n"
  }

  /** `ConstructInputTuplesHeaderMarkdown`: two passes over the columns, each
      with its own counter of unnamed columns. */
  method ConstructHeaderMarkdown(cols: Batch) returns (header: string)
    ensures header == MarkdownHeader(cols)
  {
    if |cols| == 0 {
      return " | Empty | \n | ----- | \n";
    }
    var top := MarkdownTopPass(cols);
    var rule := MarkdownRulePass(cols);
    header := " | " + top + "\n | " + rule + "\n";
  }

  /** The first pass: the top row. */
  method MarkdownTopPass(cols: Batch) returns (top: string)
    ensures top == MarkdownTop(cols, |cols|)
  {
    top := "";
    var idx: nat := 1;
    var i := 0;
    while i < |cols|
      invariant i <= |cols|
      invariant top == MarkdownTop(cols, i)
      invariant idx == UnnamedBefore(cols, i) + 1
    {
      match NameOf(cols[i]) {
        case Some(n) =>
          top := top + MarkdownCell("COLUMN_" + n);
        case None =>
          top := top + MarkdownCell("COLUMN " + NatToString(idx));
          idx := idx + 1;
      }
      i := i + 1;
    }
  }

  /** The second pass: the dash runs. */
  method MarkdownRulePass(cols: Batch) returns (rule: string)
    ensures rule == MarkdownRule(cols, |cols|)
  {
    rule := "";
    var idx: nat := 1;
    var i := 0;
    while i < |cols|
      invariant i <= |cols|
      invariant rule == MarkdownRule(cols, i)
      invariant idx == UnnamedBefore(cols, i) + 1
    {
      var name: string;
      match NameOf(cols[i]) {
        case Some(n) =>
          name := n;
        case None =>
          name := "COLUMN " + NatToString(idx);
          idx := idx + 1;
      }
      rule := rule + MarkdownCell(Repeat('-', |name|));
      i := i + 1;
    }
  }

  // ------------------------------------------------------------------- rows

  /** An XML cell: null is empty, a string is its raw text, anything else is
      its compact JSON text. */
  function CellText(v: Value, ser: Serializer): (r: string) {
    match v
    case Null => ""
    case Str(s) => s
    case _ => ser.dump(v)
  }

  /** The cells of row `i` in the first `j` columns. */
  function XmlRowCells(cols: Batch, i: nat, j: nat, ser: Serializer): (r: string)
    requires j <= |cols|
  {
    if j == 0 then ""
    else XmlRowCells(cols, i, j - 1, ser) + XmlCell(CellText(At(cols[j - 1].data, i), ser))
  }

  function XmlRows(cols: Batch, n: nat, ser: Serializer): (r: string) {
    if n == 0 then "" else XmlRows(cols, n - 1, ser) + "<row>" + XmlRowCells(cols, n - 1, |cols|, ser) + "</row>\n"
  }

  function XmlBody(cols: Batch, ser: Serializer): (r: string) {
    if RowCount(cols) == 0 then "<row></row>\n" else XmlRows(cols, RowCount(cols), ser)
  }

  /** `ConstructInputTuplesXML`. */
  method ConstructTuplesXml(cols: Batch, ser: Serializer) returns (tuples: string)
    ensures tuples == XmlBody(cols, ser)
  {
    if |cols| == 0 || |cols[0].data| == 0 {
      return "<row></row>\n";
    }
    tuples := "";
    var i := 0;
    while i < |cols[0].data|
      invariant i <= |cols[0].data|
      invariant tuples == XmlRows(cols, i, ser)
    {
      var row := "";
      var j := 0;
      while j < |cols|
        invariant j <= |cols|
        invariant row == XmlRowCells(cols, i, j, ser)
      {
        row := row + XmlCell(CellText(At(cols[j].data, i), ser));
        j := j + 1;
      }
      tuples := tuples + "<row>" + row + "</row>\n";
      i := i + 1;
    }
  }

  /** The cells of row `i` in the first `j` columns, Markdown style. */
  function MarkdownRowCells(cols: Batch, i: nat, j: nat, ser: Serializer): (r: string)
    requires j <= |cols|
  {
    if j == 0 then ""
    else MarkdownRowCells(cols, i, j - 1, ser) + MarkdownCell(ser.dump(At(cols[j - 1].data, i)))
  }

  function MarkdownRows(cols: Batch, n: nat, ser: Serializer): (r: string) {
    if n == 0 then "" else MarkdownRows(cols, n - 1, ser) + " | " + MarkdownRowCells(cols, n - 1, |cols|, ser) + "\n"
  }

  function MarkdownBody(cols: Batch, ser: Serializer): (r: string) {
    MarkdownRows(cols, RowCount(cols), ser)
  }

  /** `ConstructInputTuplesMarkdown`. */
  method ConstructTuplesMarkdown(cols: Batch, ser: Serializer) returns (tuples: string)
    ensures tuples == MarkdownBody(cols, ser)
  {
    if |cols| == 0 || |cols[0].data| == 0 {
      return "";
    }
    tuples := "";
    var i := 0;
    while i < |cols[0].data|
      invariant i <= |cols[0].data|
      invariant tuples == MarkdownRows(cols, i, ser)
    {
      var row := "";
      var j := 0;
      while j < |cols|
        invariant j <= |cols|
        invariant row == MarkdownRowCells(cols, i, j, ser)
      {
        row := row + MarkdownCell(ser.dump(At(cols[j].data, i)));
        j := j + 1;
      }
      tuples := tuples + " | " + row + "\n";
      i := i + 1;
    }
  }

  /** Each row is rendered from that row alone: row `i` of a batch renders as
      the only row of the batch cut to row `i`. */
  lemma {:induction false} XmlRowIsolated(cols: Batch, i: nat, j: nat, ser: Serializer)
    requires j <= |cols|
    ensures XmlRowCells(cols, i, j, ser) == XmlRowCells(Slice(cols, i, 1), 0, j, ser)
  {
    if j > 0 {
      XmlRowIsolated(cols, i, j - 1, ser);
      var d := cols[j - 1].data;
      assert At(SliceData(d, i, 1), 0) == At(d, i);
    }
  }

  lemma {:induction false} MarkdownRowIsolated(cols: Batch, i: nat, j: nat, ser: Serializer)
    requires j <= |cols|
    ensures MarkdownRowCells(cols, i, j, ser) == MarkdownRowCells(Slice(cols, i, 1), 0, j, ser)
  {
    if j > 0 {
      MarkdownRowIsolated(cols, i, j - 1, ser);
      var d := cols[j - 1].data;
      assert At(SliceData(d, i, 1), 0) == At(d, i);
    }
  }

  // ------------------------------------------------------------------- JSON

  /** The object `label -> data` built column by column: a later column with
      the same label overwrites an earlier one. */
  function JsonFields(cols: Batch, i: nat): (m: map<string, Value>)
    requires i <= |cols|
  {
    if i == 0 then map[] else JsonFields(cols, i - 1)[Label(cols, i - 1) := Arr(cols[i - 1].data)]
  }

  /** Every label is a key. */
  lemma {:induction false} JsonFieldsHasLabels(cols: Batch, n: nat, i: nat)
    requires i < n <= |cols|
    ensures Label(cols, i) in JsonFields(cols, n)
  {
    if i < n - 1 {
      JsonFieldsHasLabels(cols, n - 1, i);
    }
  }

  /** Every key is a label. */
  lemma {:induction false} JsonFieldsOnlyLabels(cols: Batch, n: nat, l: string)
    requires n <= |cols| && l in JsonFields(cols, n)
    ensures exists i :: 0 <= i < n && Label(cols, i) == l
  {
    if l != Label(cols, n - 1) {
      JsonFieldsOnlyLabels(cols, n - 1, l);
    }
  }

  /** A key holds the data of the last column carrying that label. */
  lemma {:induction false} JsonFieldsLastWins(cols: Batch, n: nat, i: nat)
    requires i < n <= |cols|
    requires forall j :: i < j < n ==> Label(cols, j) != Label(cols, i)
    ensures Label(cols, i) in JsonFields(cols, n) && JsonFields(cols, n)[Label(cols, i)] == Arr(cols[i].data)
  {
    if i < n - 1 {
      JsonFieldsLastWins(cols, n - 1, i);
    }
  }

  function JsonBody(cols: Batch, ser: Serializer): (r: string) {
    ser.pretty(Obj(JsonFields(cols, |cols|))) + "\n"
  }

  // ------------------------------------------------------------------ block

  const NUM_TUPLES_PREFIX: string := "- The Number of Tuples to Generate Responses for: "

  /** `ConstructNumTuples`. */
  function NumTuples(n: int): (r: string)
    ensures |NUM_TUPLES_PREFIX| + 2 < |r|
    ensures r[..|NUM_TUPLES_PREFIX|] == NUM_TUPLES_PREFIX
    ensures r[|r| - 2..] == "\n\n"
  {
    NUM_TUPLES_PREFIX + IntToString(n) + "\n\n"
  }

  /** The count in the line reads back as the number of tuples. */
  lemma NumTuplesReadBack(n: int)
    requires INT32_MIN <= n <= INT32_MAX
    ensures var r := NumTuples(n); Stoi(r[|NUM_TUPLES_PREFIX|..|r| - 2]) == Some(n)
  {
    var r := NumTuples(n);
    assert r[|NUM_TUPLES_PREFIX|..|r| - 2] == IntToString(n);
    StoiOfIntToString(n);
  }

  function Header(cols: Batch, f: TupleFormat): (r: string) {
    match f
    case XML => XmlHeader(cols)
    case Markdown => MarkdownHeader(cols)
    case JSON => ""
  }

  function Body(cols: Batch, f: TupleFormat, ser: Serializer): (r: string) {
    match f
    case XML => XmlBody(cols, ser)
    case Markdown => MarkdownBody(cols, ser)
    case JSON => JsonBody(cols, ser)
  }

  function InvalidFormat(format: string): (e: string) {
    "Invalid tuple format provided `" + format + "`"
  }

  /** `ConstructInputTuples`: the count line, the header and the rows; the
      count is the first column's length. A format outside the table fails. */
  method ConstructInputTuples(cols: Batch, format: string, parse: FormatParser, ser: Serializer)
    returns (r: Result<string>)
    ensures r.Err? <==> parse(format).None?
    ensures r.Err? ==> r.error == InvalidFormat(format)
    ensures r.Ok? ==>
      r.value == NumTuples(RowCount(cols)) + Header(cols, parse(format).value) + Body(cols, parse(format).value, ser)
  {
    var numTuples := if |cols| > 0 then |cols[0].data| else 0;
    var tuples := NumTuples(numTuples);
    match parse(format) {
      case None =>
        return Err(InvalidFormat(format));
      case Some(XML) =>
        var header := ConstructHeaderXml(cols);
        var body := ConstructTuplesXml(cols, ser);
        return Ok(tuples + header + body);
      case Some(Markdown) =>
        var header := ConstructHeaderMarkdown(cols);
        var body := ConstructTuplesMarkdown(cols, ser);
        return Ok(tuples + header + body);
      case Some(JSON) =>
        return Ok(tuples + "" + JsonBody(cols, ser));
    }
  }
}
