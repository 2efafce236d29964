/** `ClaudeBot.get_response`: walks the query, keeps the attachment messages
    that carry metadata, picks the strategy from the attachment's name alone,
    adds one line naming the attachment per extraction or caught error, and
    either answers with the lines newline-joined or, when there is none,
    hands the whole request on to the hosted model. */
module ClaudeBot {
  import opened Wrappers
  import opened Strings
  import opened Extraction

  /** A query message: its role, its content, and its metadata dictionary
      (`None` when absent). */
  datatype Message = Message(role: string, content: string, metadata: Option<map<string, string>>)

  datatype Request = Request(query: seq<Message>)

  /** The single partial response the bot yields, or the signal that the
      request is streamed through the hosted model instead. */
  datatype Outcome = Reply(text: string) | Delegate

  const DefaultName: string := "Без имени"

  /** `message.role == "attachment" and message.metadata`: the role matches
      and the metadata is present and non-empty. */
  predicate IsAttachment(m: Message)
  {
    m.role == "attachment" && m.metadata.Some? && |m.metadata.value| > 0
  }

  /** `metadata.get("name", "Без имени")`. */
  function AttachmentName(metadata: map<string, string>): string
  {
    if "name" in metadata then metadata["name"] else DefaultName
  }

  /** The words before the attachment name in a success line. */
  function SuccessHead(s: Strategy): string
    requires s != NoStrategy
  {
    if s == Docx then "Текст из .docx файла "
    else if s == Pdf then "Текст из PDF файла "
    else "Содержимое .xlsx файла "
  }

  /** The words before the attachment name in a failure line. */
  function FailureHead(s: Strategy): string
    requires s != NoStrategy
  {
    if s == Docx then "Ошибка обработки .docx файла "
    else if s == Pdf then "Ошибка обработки PDF файла "
    else "Ошибка обработки .xlsx файла "
  }

  /** The line an attachment adds: heading, name and body on success;
      heading, name and exception text on failure. */
  function FileLine(s: Strategy, name: string, body: Result<string, string>): string
    requires s != NoStrategy
  {
    match body
    case Success(text) => SuccessHead(s) + name + ":\n" + text
    case Failure(e) => FailureHead(s) + name + ": " + e
  }

  /** The line one query message adds to `responses`, if any. */
  function Entry(m: Message, p: Parsers): Option<string>
  {
    if !IsAttachment(m) then None
    else
      var name := AttachmentName(m.metadata.value);
      var s := Classify(name);
      if s == NoStrategy then None
      else Some(FileLine(s, name, ExtractBody(s, m.content, p)))
  }

  /** `Entry` as a function value, to hand to `Lines`. */
  function EntryOf(p: Parsers): Message -> Option<string>
  {
    m => Entry(m, p)
  }

  /** The `responses` list after the loop over `query`: each message's line,
      in query order. */
  function Entries(query: seq<Message>, p: Parsers): seq<string>
  {
    Lines(query, EntryOf(p))
  }

  /** The whole of `get_response`. */
  function Respond(request: Request, p: Parsers): Outcome
  {
    var lines := Entries(request.query, p);
    if |lines| == 0 then Delegate else Reply(Join("\n", lines))
  }

  /** One pass of the `for message` loop body: the attachment filter, the
      default name, the suffix dispatch, the `try` around each parser, and the
      `append` of the one line the message contributes, if any. */
  method AppendLine(responses: seq<string>, m: Message, p: Parsers) returns (updated: seq<string>)
    ensures updated == responses + ToSeq(Entry(m, p))
  {
    updated := responses;
    if m.role == "attachment" && m.metadata.Some? && |m.metadata.value| > 0 {
      var name := AttachmentName(m.metadata.value);
      if EndsWith(name, ".docx") {
        assert Classify(name) == Docx;
        match p.docxParagraphs(m.content)
        case Success(paragraphs) =>
          updated := updated + ["Текст из .docx файла " + name + ":\n" + Join("\n", paragraphs)];
        case Failure(e) =>
          updated := updated + ["Ошибка обработки .docx файла " + name + ": " + e];
      } else if EndsWith(name, ".pdf") {
        assert Classify(name) == Pdf;
        match p.pdfPages(m.content)
        case Success(pages) =>
          updated := updated + ["Текст из PDF файла " + name + ":\n" + Join("\n", pages)];
        case Failure(e) =>
          updated := updated + ["Ошибка обработки PDF файла " + name + ": " + e];
      } else if EndsWith(name, ".xlsx") {
        assert Classify(name) == Xlsx;
        match p.xlsxRows(m.content)
        case Success(sheet) =>
          var xlsxText := RenderWorksheet(sheet);
          updated := updated + ["Содержимое .xlsx файла " + name + ":\n" + xlsxText];
        case Failure(e) =>
          updated := updated + ["Ошибка обработки .xlsx файла " + name + ": " + e];
      } else {
        assert Classify(name) == NoStrategy;
      }
    }
  }

  /** The `for message in request.query` loop: `responses` after it holds
      each message's line, in query order. */
  method CollectLines(query: seq<Message>, p: Parsers) returns (responses: seq<string>)
    ensures responses == Entries(query, p)
  {
    responses := [];
    var i := 0;
    while i < |query|
      invariant 0 <= i <= |query|
      invariant responses == Entries(query[..i], p)
    {
      responses := AppendLine(responses, query[i], p);
      assert query[..i + 1][..i] == query[..i];
      assert EntryOf(p)(query[i]) == Entry(query[i], p);
      assert Entries(query[..i + 1], p) == Entries(query[..i], p) + ToSeq(Entry(query[i], p));
      i := i + 1;
    }
    assert query[..i] == query;
  }

  /** `get_response` as the bot runs it: the lines collected from the query,
      then either the delegation or the one joined reply. */
  method GetResponse(request: Request, p: Parsers) returns (out: Outcome)
    ensures out == Respond(request, p)
  {
    var responses := CollectLines(request.query, p);
    if |responses| == 0 {
      out := Delegate;
    } else {
      out := Reply(Join("\n", responses));
    }
  }

  /** A parser failure on message `i` puts only that attachment's error line,
      naming it, at its place; the other messages' lines are unchanged. */
  lemma FailureIsolated(query: seq<Message>, i: nat, p: Parsers)
    requires i < |query| && IsAttachment(query[i])
    requires Classify(AttachmentName(query[i].metadata.value)) != NoStrategy
    requires ExtractBody(Classify(AttachmentName(query[i].metadata.value)), query[i].content, p).Failure?
    ensures Entries(query, p)
         == Entries(query[..i], p)
            + [FailureHead(Classify(AttachmentName(query[i].metadata.value)))
               + AttachmentName(query[i].metadata.value) + ": "
               + ExtractBody(Classify(AttachmentName(query[i].metadata.value)), query[i].content, p).error]
            + Entries(query[i + 1..], p)
  {
    LinesAt(query, i, query[i], EntryOf(p));
    assert query[i := query[i]] == query;
    assert EntryOf(p)(query[i]) == Entry(query[i], p);
  }

  /** A message adds a line exactly when it is an attachment with metadata
      whose name (or the default name) ends in one of the three suffixes. */
  lemma HandledExactly(m: Message, p: Parsers)
    ensures Entry(m, p).Some? <==>
      IsAttachment(m) &&
      (EndsWith(AttachmentName(m.metadata.value), ".docx") ||
       EndsWith(AttachmentName(m.metadata.value), ".pdf") ||
       EndsWith(AttachmentName(m.metadata.value), ".xlsx"))
  {
  }

  /** The default name matches no suffix, so an attachment without a `"name"`
      key never adds a line. */
  lemma UnnamedSkipped(m: Message, p: Parsers)
    requires m.metadata.Some? && "name" !in m.metadata.value
    ensures Entry(m, p) == None
  {
    assert DefaultName[|DefaultName| - 1] == 'и';
  }

  /** Every line, success or failure, contains the name of its attachment. */
  lemma EntryNamesAttachment(m: Message, p: Parsers)
    requires Entry(m, p).Some?
    ensures IsAttachment(m) && IsSubstring(AttachmentName(m.metadata.value), Entry(m, p).value)
  {
    var name := AttachmentName(m.metadata.value);
    var s := Classify(name);
    var line := Entry(m, p).value;
    var body := ExtractBody(s, m.content, p);
    var head := if body.Success? then SuccessHead(s) else FailureHead(s);
    var tail := if body.Success? then ":\n" + body.value else ": " + body.error;
    assert line == head + name + tail;
    assert (head + name + tail)[|head|..|head| + |name|] == name;
    assert OccursAt(name, line, |head|);
  }

  /** `line` contains the name of some attachment message of `query`. */
  ghost predicate NamesAttachmentOf(line: string, query: seq<Message>)
  {
    exists j :: 0 <= j < |query| && IsAttachment(query[j]) &&
                IsSubstring(AttachmentName(query[j].metadata.value), line)
  }

  /** Across the whole query: every line of `responses` contains the name of
      an attachment message of the query. */
  lemma EntriesNameAttachments(query: seq<Message>, p: Parsers)
    ensures forall line :: line in Entries(query, p) ==> NamesAttachmentOf(line, query)
  {
    LinesFromItems(query, EntryOf(p));
    forall line | line in Entries(query, p)
      ensures NamesAttachmentOf(line, query)
    {
      var j :| 0 <= j < |query| && EntryOf(p)(query[j]) == Some(line);
      assert Entry(query[j], p) == Some(line);
      EntryNamesAttachment(query[j], p);
    }
  }

  /** Delegation happens exactly when no message is handled. Otherwise the
      one reply is the lines newline-joined: it lays them out in query order
      with one newline between neighbours, and when no line holds a newline
      (only failure lines can qualify, since a success line has a newline
      after its heading) cutting the reply at its newlines gives them back. */
  lemma DelegateOrReply(request: Request, p: Parsers)
    ensures Respond(request, p) == Delegate <==>
      forall i :: 0 <= i < |request.query| ==> Entry(request.query[i], p).None?
    ensures Respond(request, p).Reply? ==>
      Respond(request, p).text == Join("\n", Entries(request.query, p))
    ensures Respond(request, p).Reply? ==>
      JoinedLayout("\n", Entries(request.query, p), Respond(request, p).text)
    ensures Respond(request, p).Reply? && (forall e :: e in Entries(request.query, p) ==> '\n' !in e) ==>
      Split(Respond(request, p).text, '\n') == Entries(request.query, p)
  {
    var query := request.query;
    forall i | 0 <= i < |query|
      ensures EntryOf(p)(query[i]) == Entry(query[i], p)
    {
    }
    NoLines(query, EntryOf(p));
    var lines := Entries(query, p);
    JoinLayout("\n", lines);
    if lines != [] && (forall e :: e in lines ==> '\n' !in e) {
      SplitJoin(lines, '\n');
    }
  }
}
