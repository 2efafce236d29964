/** `EchoBot.get_response`: walks the request's attachments in order, turns
    each handled one into exactly one line of text (inline text, an image
    notice, or a `.docx`/`.pdf`/`.xlsx` extraction or its caught error),
    skips the rest, falls back to echoing the last message when no line was
    produced, and answers with the lines newline-joined. */
module EchoBot {
  import opened Wrappers
  import opened Strings
  import opened Extraction

  /** An attachment as the host delivers it: a coarse `type`, a file name and
      the content handed to the parsers. */
  datatype Attachment = Attachment(kind: string, name: string, content: string)

  datatype Message = Message(role: string, content: string)

  datatype Request = Request(query: seq<Message>, attachments: seq<Attachment>)

  /** The one partial response the bot yields, or the `IndexError` that
      `request.query[-1]` raises when there is no line and no message. */
  datatype Outcome = Reply(text: string) | QueryIndexError

  function SuccessLabel(s: Strategy): string
    requires s != NoStrategy
  {
    if s == Docx then "Текст из .docx файла: "
    else if s == Pdf then "Текст из PDF файла: "
    else "Содержимое .xlsx файла:\n"
  }

  function FailureLabel(s: Strategy): string
    requires s != NoStrategy
  {
    if s == Docx then "Ошибка обработки .docx файла: "
    else if s == Pdf then "Ошибка обработки PDF файла: "
    else "Ошибка обработки .xlsx файла: "
  }

  /** The line a file attachment adds: the label and body on success, the
      error label and exception text on failure; the attachment's name is in
      neither. */
  function FileLine(s: Strategy, body: Result<string, string>): string
    requires s != NoStrategy
  {
    match body
    case Success(text) => SuccessLabel(s) + text
    case Failure(e) => FailureLabel(s) + e
  }

  /** The line one attachment adds to `responses`, if any. The `type` tests
      come first; only a `"file"` goes on to the suffix tests. */
  function Entry(a: Attachment, p: Parsers): Option<string>
  {
    if a.kind == "text" then Some("Текст из вложения: " + a.content)
    else if a.kind == "image" then Some("Изображение получено: " + a.name)
    else if a.kind == "file" && Classify(a.name) != NoStrategy then
      Some(FileLine(Classify(a.name), ExtractBody(Classify(a.name), a.content, p)))
    else None
  }

  /** `Entry` as a function value, to hand to `Lines`. */
  function EntryOf(p: Parsers): Attachment -> Option<string>
  {
    a => Entry(a, p)
  }

  /** The `responses` list after the loop over `atts`: each attachment's line,
      in order. */
  function Entries(atts: seq<Attachment>, p: Parsers): seq<string>
  {
    Lines(atts, EntryOf(p))
  }

  /** The whole of `get_response`. */
  function Respond(request: Request, p: Parsers): Outcome
  {
    var lines := Entries(request.attachments, p);
    if |lines| > 0 then Reply(Join("\n", lines))
    else if |request.query| == 0 then QueryIndexError
    else Reply("Вы сказали: " + request.query[|request.query| - 1].content)
  }

  /** One pass of the `for attachment` loop body: the `type`/suffix dispatch,
      the `try` around each parser, and the `append` of the one line the
      attachment contributes, if any. */
  method AppendLine(responses: seq<string>, a: Attachment, p: Parsers) returns (updated: seq<string>)
    ensures updated == responses + ToSeq(Entry(a, p))
  {
    updated := responses;
    if a.kind == "text" {
      updated := updated + ["Текст из вложения: " + a.content];
    } else if a.kind == "image" {
      updated := updated + ["Изображение получено: " + a.name];
    } else if a.kind == "file" && EndsWith(a.name, ".docx") {
      assert Classify(a.name) == Docx;
      match p.docxParagraphs(a.content)
      case Success(paragraphs) =>
        updated := updated + ["Текст из .docx файла: " + Join("\n", paragraphs)];
      case Failure(e) =>
        updated := updated + ["Ошибка обработки .docx файла: " + e];
    } else if a.kind == "file" && EndsWith(a.name, ".pdf") {
      assert Classify(a.name) == Pdf;
      match p.pdfPages(a.content)
      case Success(pages) =>
        updated := updated + ["Текст из PDF файла: " + Join("\n", pages)];
      case Failure(e) =>
        updated := updated + ["Ошибка обработки PDF файла: " + e];
    } else if a.kind == "file" && EndsWith(a.name, ".xlsx") {
      assert Classify(a.name) == Xlsx;
      match p.xlsxRows(a.content)
      case Success(sheet) =>
        var xlsxText := RenderWorksheet(sheet);
        updated := updated + ["Содержимое .xlsx файла:\n" + xlsxText];
      case Failure(e) =>
        updated := updated + ["Ошибка обработки .xlsx файла: " + e];
    } else if a.kind == "file" {
      assert Classify(a.name) == NoStrategy;
    }
  }

  /** The `for attachment in request.attachments` loop: `responses` after
      it holds each attachment's line, in attachment order. */
  method CollectLines(atts: seq<Attachment>, p: Parsers) returns (responses: seq<string>)
    ensures responses == Entries(atts, p)
  {
    responses := [];
    var i := 0;
    while i < |atts|
      invariant 0 <= i <= |atts|
      invariant responses == Entries(atts[..i], p)
    {
      responses := AppendLine(responses, atts[i], p);
      assert atts[..i + 1][..i] == atts[..i];
      assert EntryOf(p)(atts[i]) == Entry(atts[i], p);
      assert Entries(atts[..i + 1], p) == Entries(atts[..i], p) + ToSeq(Entry(atts[i], p));
      i := i + 1;
    }
    assert atts[..i] == atts;
  }

  /** `get_response` as the bot runs it: the lines collected from the
      attachments, the echo fallback, and the final join. */
  method GetResponse(request: Request, p: Parsers) returns (out: Outcome)
    ensures out == Respond(request, p)
  {
    var responses := CollectLines(request.attachments, p);
    if |responses| == 0 {
      if |request.query| == 0 {
        return QueryIndexError;
      }
      responses := ["Вы сказали: " + request.query[|request.query| - 1].content];
    }
    out := Reply(Join("\n", responses));
  }

  /** A parser failure on attachment `i` puts only that attachment's error
      line at its place; the lines of every other attachment are those it
      would have had anyway. */
  lemma FailureIsolated(atts: seq<Attachment>, i: nat, p: Parsers)
    requires i < |atts|
    requires atts[i].kind == "file" && Classify(atts[i].name) != NoStrategy
    requires ExtractBody(Classify(atts[i].name), atts[i].content, p).Failure?
    ensures Entries(atts, p)
         == Entries(atts[..i], p)
            + [FailureLabel(Classify(atts[i].name)) + ExtractBody(Classify(atts[i].name), atts[i].content, p).error]
            + Entries(atts[i + 1..], p)
  {
    LinesAt(atts, i, atts[i], EntryOf(p));
    assert atts[i := atts[i]] == atts;
    assert EntryOf(p)(atts[i]) == Entry(atts[i], p);
  }

  /** The `type` tests win over the file name: a `"text"` or `"image"`
      attachment named like a document is reported as text or image. */
  lemma TypeBeforeSuffix(a: Attachment, p: Parsers)
    requires Classify(a.name) != NoStrategy
    ensures a.kind == "text" ==> Entry(a, p) == Some("Текст из вложения: " + a.content)
    ensures a.kind == "image" ==> Entry(a, p) == Some("Изображение получено: " + a.name)
  {
  }

  /** An attachment adds a line exactly when it is inline text, an image, or a
      file whose name ends in one of the three suffixes. */
  lemma HandledExactly(a: Attachment, p: Parsers)
    ensures Entry(a, p).Some? <==>
      a.kind == "text" || a.kind == "image" ||
      (a.kind == "file" &&
       (EndsWith(a.name, ".docx") || EndsWith(a.name, ".pdf") || EndsWith(a.name, ".xlsx")))
  {
  }

  /** The echo fallback: when no attachment is handled (including when there
      are none) and there is a message, the answer is exactly the echo of the
      last message. */
  lemma EchoFallback(request: Request, p: Parsers)
    requires |request.query| > 0
    requires forall i :: 0 <= i < |request.attachments| ==> Entry(request.attachments[i], p).None?
    ensures Respond(request, p) == Reply("Вы сказали: " + request.query[|request.query| - 1].content)
  {
    var atts := request.attachments;
    forall i | 0 <= i < |atts|
      ensures EntryOf(p)(atts[i]).None?
    {
      assert EntryOf(p)(atts[i]) == Entry(atts[i], p);
    }
    NoLines(atts, EntryOf(p));
  }

  /** Exactly one answer: the request fails only when nothing was handled and
      there is no message to echo. Otherwise, when there are lines, the reply
      lays them out in attachment order with one newline between neighbours;
      when in addition no line holds a newline, cutting the reply at its
      newlines gives back the lines. */
  lemma OneReply(request: Request, p: Parsers)
    ensures Respond(request, p).QueryIndexError? <==>
      (Entries(request.attachments, p) == [] && |request.query| == 0)
    ensures Entries(request.attachments, p) != [] ==>
      Respond(request, p) == Reply(Join("\n", Entries(request.attachments, p)))
    ensures Entries(request.attachments, p) != [] ==>
      JoinedLayout("\n", Entries(request.attachments, p), Respond(request, p).text)
    ensures Entries(request.attachments, p) != [] &&
            (forall e :: e in Entries(request.attachments, p) ==> '\n' !in e) ==>
      Split(Respond(request, p).text, '\n') == Entries(request.attachments, p)
  {
    var lines := Entries(request.attachments, p);
    JoinLayout("\n", lines);
    if lines != [] && (forall e :: e in lines ==> '\n' !in e) {
      SplitJoin(lines, '\n');
    }
  }
}
