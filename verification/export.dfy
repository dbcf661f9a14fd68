/** Exporting the conversation log (export_to_pdf in app.py): the empty-log
    check, the plain-text record layout and the per-turn truncation of the
    styled document. Files, fonts and colours are not modelled; an export is
    described by what it would write. */
module Export {
  import opened Common
  import opened Conversation

  const TruncationLimit := 500
  const Ellipsis := "..."
  const SeparatorWidth := 40
  const BannerWidth := 80

  /** The paragraph style of a turn's role header. */
  datatype Style = UserStyle | AssistantStyle

  /** One turn of the styled document: the role header, its style and the
      (possibly truncated) content paragraph. */
  datatype PdfTurn = PdfTurn(role: string, style: Style, text: string)

  datatype ExportOutcome =
    | NothingToExport            // the log is empty: no file, a notice instead
    | TextFile(body: string)     // plain text, when the PDF library is missing
    | PdfFile(turns: seq<PdfTurn>)
    | ExportFailed               // an entry is not a dict, or writing/rendering raises

  function Repeat(c: char, n: nat): (r: string)
    ensures |r| == n && forall i :: 0 <= i < n ==> r[i] == c
  {
    if n == 0 then "" else Repeat(c, n - 1) + [c]
  }

  function Min(a: nat, b: nat): nat {
    if a <= b then a else b
  }

  /** content[:500] + "..." if len(content) > 500 else content. */
  function Truncate(content: string): (r: string)
    ensures |r| == if |content| <= TruncationLimit then |content| else TruncationLimit + |Ellipsis|
    ensures var k := Min(|content|, TruncationLimit); r[..k] == content[..k]
    ensures |content| > TruncationLimit ==> r[TruncationLimit..] == Ellipsis
    ensures |content| <= TruncationLimit ==> r == content
  {
    if |content| > TruncationLimit then content[..TruncationLimit] + Ellipsis else content
  }

  /** Every entry of the log is a dict. */
  predicate AllDicts(log: seq<Message>) {
    forall i :: 0 <= i < |log| ==> log[i].Turn?
  }

  /** The head of a text record: a blank line, the role and a colon, a line of
      40 dashes. */
  function RecordHeader(role: string): (r: string)
    ensures |r| == |role| + 4 + SeparatorWidth
  {
    "\n" + role + ":\n" + Repeat('-', SeparatorWidth) + "\n"
  }

  /** What the plain-text export writes for one turn. */
  function TextRecord(role: string, content: string): string {
    RecordHeader(role) + content + "\n"
  }

  /** The text record keeps the whole content: it can be read back between the
      header and the final newline. */
  lemma TextRecordKeepsContent(role: string, content: string)
    ensures var r := TextRecord(role, content); var h := |role| + 4 + SeparatorWidth;
      && |r| == h + |content| + 1
      && r[..h] == RecordHeader(role)
      && r[h..|r| - 1] == content
      && r[|r| - 1] == '\n'
  {
  }

  /** The text record of a log entry; the export never writes an entry that
      is not a dict. */
  function RecordOf(m: Message): string {
    if m.Turn? then TextRecord(m.role, m.content) else ""
  }

  /** The records of the whole log, one after the other. */
  function TextRecords(log: seq<Message>): string {
    ConcatMap(log, RecordOf)
  }

  /** The plain-text export writes every turn, in log order and in full: the
      records of the turns before it, its own record, the records after it. */
  lemma TextRecordsKeepEveryTurn(log: seq<Message>, i: nat)
    requires AllDicts(log) && i < |log|
    ensures TextRecords(log) ==
      TextRecords(log[..i]) + TextRecord(log[i].role, log[i].content) + TextRecords(log[i + 1..])
  {
    var mid, post := log[..i + 1], log[i + 1..];
    assert mid[..i] == log[..i] && mid[i] == log[i];
    assert TextRecords(mid) == TextRecords(log[..i]) + RecordOf(log[i]);
    assert log == mid + post;
    ConcatMapAppend(mid, post, RecordOf);
  }

  /** The text file's banner; the date is the wall-clock time of the export. */
  function TextBanner(date: string): string {
    Repeat('=', BannerWidth) + "\n"
    + "EXPORT DE CONVERSATION - MANUEL DE PROCÉDURES\n"
    + "Date: " + date + "\n"
    + Repeat('=', BannerWidth) + "\n\n"
  }

  /** The user's turns get the user style, every other role the assistant style. */
  function StyleFor(role: string): (s: Style)
    ensures s == UserStyle <==> role == UserRole
  {
    if role == UserRole then UserStyle else AssistantStyle
  }

  /** The turns of the styled document, one per log entry, in log order. */
  function PdfTurns(log: seq<Message>): (r: seq<PdfTurn>)
    requires AllDicts(log)
    ensures |r| == |log|
    ensures forall i :: 0 <= i < |log| ==>
      && r[i].role == log[i].role
      && (r[i].style == UserStyle <==> log[i].role == UserRole)
      && |r[i].text| == (if |log[i].content| <= TruncationLimit then |log[i].content|
                         else TruncationLimit + |Ellipsis|)
      && (|log[i].content| <= TruncationLimit ==> r[i].text == log[i].content)
      && (|log[i].content| > TruncationLimit ==>
            && r[i].text[..TruncationLimit] == log[i].content[..TruncationLimit]
            && r[i].text[TruncationLimit..] == Ellipsis)
  {
    seq(|log|, i requires 0 <= i < |log| =>
      PdfTurn(log[i].role, StyleFor(log[i].role), Truncate(log[i].content)))
  }

  /** export_to_pdf: nothing for an empty log, otherwise the plain-text file
      when the PDF library is missing and the styled document when it is there.
      `sinkFails` stands for every failure outside the log itself: the file
      cannot be opened or written, a paragraph's markup is rejected, or the
      document cannot be built. */
  function ExportLog(log: seq<Message>, pdfAvailable: bool, sinkFails: bool, date: string): (r: ExportOutcome)
    ensures r == NothingToExport <==> log == []
    ensures r == ExportFailed <==> log != [] && (!AllDicts(log) || sinkFails)
    ensures r.TextFile? <==> log != [] && AllDicts(log) && !sinkFails && !pdfAvailable
    ensures r.PdfFile? <==> log != [] && AllDicts(log) && !sinkFails && pdfAvailable
    ensures r.TextFile? ==> r.body == TextBanner(date) + TextRecords(log)
    ensures r.PdfFile? ==> AllDicts(log) && r.turns == PdfTurns(log)
  {
    if log == [] then NothingToExport
    else if !AllDicts(log) || sinkFails then ExportFailed
    else if !pdfAvailable then TextFile(TextBanner(date) + TextRecords(log))
    else PdfFile(PdfTurns(log))
  }

  /** A non-empty log built by the service produces a file unless writing or
      rendering fails: no entry of it makes `.get` raise. */
  lemma WellFormedLogExports(log: seq<Message>, pdfAvailable: bool, sinkFails: bool, date: string)
    requires WellFormed(log) && log != []
    ensures ExportLog(log, pdfAvailable, sinkFails, date) == ExportFailed <==> sinkFails
    ensures !sinkFails ==>
      if pdfAvailable then ExportLog(log, pdfAvailable, sinkFails, date) == PdfFile(PdfTurns(log))
      else ExportLog(log, pdfAvailable, sinkFails, date).TextFile?
  {
  }

  /** Resetting the history and then exporting writes nothing. */
  method ResetThenExport(log: ConversationLog, pdfAvailable: bool, sinkFails: bool, date: string)
    returns (outcome: ExportOutcome)
    modifies log
    ensures log.turns == []
    ensures outcome == NothingToExport
  {
    var _, _ := log.Reset();
    outcome := ExportLog(log.turns, pdfAvailable, sinkFails, date);
  }
}
