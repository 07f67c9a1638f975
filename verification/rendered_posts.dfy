/** What the renderer makes of the bodies the passes type. The submitted
    reply is the only body the page renders: its image markup after a blank
    line becomes two breaks and an image. The create view never renders its
    body; run through the renderer, the book's name typed between double
    asterisks would come out bold. */
module RenderedPosts {
  import opened Scenario
  import opened ScenarioFacts
  import opened MarkdownRules
  import opened Markdown
  import opened MarkdownExamples
  import opened TagFacts
  import opened MarkdownLinks

  /** The book's name, without the asterisks around it. */
  const BookName := "'אור הלב'"

  lemma BookNameInPart2()
    ensures Part2 == "**" + BookName + "**"
  {
  }

  lemma PlainAppend(a: string, b: string)
    requires Plain(a) && Plain(b)
    ensures Plain(a + b)
  {
  }

  // The typed texts, a few words at a time.
  lemma Part1Words()
    ensures Part1 == "אני " + "רוצה " + "להמליץ " + "לכם על " + "הספר "
  {
  }

  lemma Part3Words()
    ensures Part3 == " - ספר " + "מדהים " + "לכל " + "המשפחה."
  {
  }

  lemma Word1Plain() ensures Plain("אני ") && Plain("רוצה ") { }
  lemma Word2Plain() ensures Plain("להמליץ ") { }
  lemma Word3Plain() ensures Plain("לכם על ") { }
  lemma Word4Plain() ensures Plain("הספר ") { }
  lemma Word5Plain() ensures Plain(" - ספר ") { }
  lemma Word6Plain() ensures Plain("מדהים ") && Plain("לכל ") { }
  lemma Word7Plain() ensures Plain("המשפחה.") { }

  lemma Part1Plain() ensures Plain(Part1)
  {
    Part1Words();
    Word1Plain();
    Word2Plain();
    Word3Plain();
    Word4Plain();
    PlainAppend("אני ", "רוצה ");
    PlainAppend("אני " + "רוצה ", "להמליץ ");
    PlainAppend("אני " + "רוצה " + "להמליץ ", "לכם על ");
    PlainAppend("אני " + "רוצה " + "להמליץ " + "לכם על ", "הספר ");
  }

  lemma BookNamePlain() ensures Plain(BookName) { }

  lemma Part3Plain() ensures Plain(Part3)
  {
    Part3Words();
    Word5Plain();
    Word6Plain();
    Word7Plain();
    PlainAppend(" - ספר ", "מדהים ");
    PlainAppend(" - ספר " + "מדהים ", "לכל ");
    PlainAppend(" - ספר " + "מדהים " + "לכל ", "המשפחה.");
  }

  /** The renderer would turn the body a create pass ends with into the
      first part, the book's name in a bold element and the last part, with
      no asterisk left. */
  lemma CreateBodyRenders()
    ensures ParseMarkdown(CreateBody) == Part1 + BoldTag(BookName) + Part3
    ensures '*' !in ParseMarkdown(CreateBody)
  {
    BookNameInPart2();
    Part1Plain();
    BookNamePlain();
    Part3Plain();
    assert CreateBody == Part1 + "**" + BookName + "**" + Part3;
    BoldSpanRenders(Part1, BookName, Part3);
  }

  // --- the reply ---

  /** The image's address and its alternative text. */
  const PictureUrl := "https://picsum.photos/400/200"
  const PictureAlt := "ספר"

  lemma ReplyImageShape()
    ensures ReplyImage == "\n\n" + ImageText(PictureAlt, PictureUrl)
  {
  }

  lemma LinkPartAppend(a: string, b: string)
    requires LinkPart(a) && LinkPart(b)
    ensures LinkPart(a + b)
  {
  }

  lemma PictureUrlPieces()
    ensures PictureUrl == "https://" + "picsum." + "photos/" + "400/200"
  {
  }

  lemma Piece1Link() ensures LinkPart("https://") { }
  lemma Piece2Link() ensures LinkPart("picsum.") { }
  lemma Piece3Link() ensures LinkPart("photos/") { }
  lemma Piece4Link() ensures LinkPart("400/200") { }

  lemma PictureUrlLink() ensures LinkPart(PictureUrl)
  {
    PictureUrlPieces();
    Piece1Link();
    Piece2Link();
    Piece3Link();
    Piece4Link();
    LinkPartAppend("https://", "picsum.");
    LinkPartAppend("https://" + "picsum.", "photos/");
    LinkPartAppend("https://" + "picsum." + "photos/", "400/200");
  }

  lemma PictureAltLink() ensures LinkPart(PictureAlt) { }

  lemma ReplyMessageWords()
    ensures ReplyMessage == "יישר " + "כוח! " + "הנה " + "תמונה " + "של " + "הספר " + "מהחנות:"
  {
  }

  lemma Word8Plain() ensures Plain("יישר ") && Plain("כוח! ") { }
  lemma Word9Plain() ensures Plain("הנה ") && Plain("תמונה ") { }
  lemma Word10Plain() ensures Plain("של ") && Plain("מהחנות:") { }

  lemma ReplyMessagePlain() ensures Plain(ReplyMessage)
  {
    ReplyMessageWords();
    Word8Plain();
    Word9Plain();
    Word10Plain();
    Word4Plain();
    PlainAppend("יישר ", "כוח! ");
    PlainAppend("יישר " + "כוח! ", "הנה ");
    PlainAppend("יישר " + "כוח! " + "הנה ", "תמונה ");
    PlainAppend("יישר " + "כוח! " + "הנה " + "תמונה ", "של ");
    PlainAppend("יישר " + "כוח! " + "הנה " + "תמונה " + "של ", "הספר ");
    PlainAppend("יישר " + "כוח! " + "הנה " + "תמונה " + "של " + "הספר ", "מהחנות:");
  }

  /** The body a reply pass ends with renders as the message, two line
      breaks and an image element showing the picture. */
  lemma ReplyBodyRenders()
    ensures ParseMarkdown(ReplyMessage + ReplyImage)
      == ReplyMessage + "<br><br>" + ImageTag(PictureUrl, PictureAlt)
  {
    ReplyImageShape();
    ReplyMessagePlain();
    PictureUrlLink();
    PictureAltLink();
    assert ReplyMessage + ReplyImage == ReplyMessage + "\n\n" + ImageText(PictureAlt, PictureUrl);
    ImageAfterBlankLine(ReplyMessage, PictureAlt, PictureUrl);
  }
}
