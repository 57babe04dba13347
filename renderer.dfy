/**
 * The line-to-block renderer shared by the pages: backend text is split on
 * '\n' and every line becomes exactly one heading, list item or paragraph.
 * The profile page recognises "###" as its heading marker, the resume page
 * "##"; the chat page renders every line as a plain paragraph.
 */
module Renderer {
  import opened Text

  datatype Block = Heading(text: string) | ListItem(text: string) | Paragraph(text: string)

  /** Heading marker of the career recommendation page. */
  const ProfileMarker: string := "###"
  /** Heading marker of the resume feedback section. */
  const ResumeMarker: string := "##"
  /** List marker of both pages. */
  const ListMarker: string := "-"

  /**
   * One line as a block: the heading test first, then the list test. Both
   * remove the FIRST occurrence of their marker and trim what is left; any
   * other line is kept verbatim.
   */
  function Classify(line: string, marker: string): (b: Block)
    ensures b.Heading? <==> StartsWith(line, marker)
    ensures b.ListItem? <==> !StartsWith(line, marker) && StartsWith(line, ListMarker)
    ensures b.Paragraph? ==> b.text == line
  {
    if StartsWith(line, marker) then Heading(Trim(RemoveFirst(line, marker)))
    else if StartsWith(line, ListMarker) then ListItem(Trim(RemoveFirst(line, ListMarker)))
    else Paragraph(line)
  }

  /** A heading holds the line after its leading marker, trimmed. */
  lemma ClassifyHeading(line: string, marker: string)
    requires StartsWith(line, marker)
    ensures Classify(line, marker) == Heading(Trim(line[|marker|..]))
  {
    RemoveFirstOfPrefix(line, marker);
  }

  /** A list item holds the line after its leading dash, trimmed. */
  lemma ClassifyListItem(line: string, marker: string)
    requires !StartsWith(line, marker) && StartsWith(line, ListMarker)
    ensures Classify(line, marker) == ListItem(Trim(line[1..]))
  {
    RemoveFirstOfPrefix(line, ListMarker);
  }

  /** Heading and list-item text never starts or ends with whitespace. */
  lemma ClassifiedTextTrimmed(line: string, marker: string)
    requires !Classify(line, marker).Paragraph?
    ensures var t := Classify(line, marker).text;
      t == [] || (!IsWhitespace(t[0]) && !IsWhitespace(t[|t| - 1]))
  {
    if StartsWith(line, marker) {
      ClassifyHeading(line, marker);
      TrimmedEnds(line[|marker|..]);
    } else {
      ClassifyListItem(line, marker);
      TrimmedEnds(line[1..]);
    }
  }

  /**
   * On the resume page a "### X" line is a heading whose text keeps one '#':
   * only the first "##" is removed.
   */
  lemma ResumeTripleHashKeepsHash(x: string)
    ensures Classify("###" + x, ResumeMarker) == Heading(Trim("#" + x))
    ensures Trim("#" + x) != [] && Trim("#" + x)[0] == '#'
  {
    var rest := "#" + x;
    TrimKeepsFirst(rest);
    var line := "###" + x;
    assert line == ResumeMarker + rest;
    assert line[..|ResumeMarker|] == ResumeMarker;
    assert line[|ResumeMarker|..] == rest;
    ClassifyHeading(line, ResumeMarker);
  }

  /** On the profile page a line starting with "##" but not "###" is an ordinary paragraph. */
  lemma ProfileDoubleHashIsParagraph(line: string)
    requires StartsWith(line, "##") && !StartsWith(line, ProfileMarker)
    ensures Classify(line, ProfileMarker) == Paragraph(line)
  {
    assert line[0] == '#';
    assert !StartsWith(line, ListMarker) by { assert line[..1] == "#"; }
  }

  /** The heading test wins over the list test: a marker line is a heading even if it also starts with "-". */
  lemma HeadingBeforeList(line: string, marker: string)
    requires StartsWith(line, marker) && StartsWith(line, ListMarker)
    ensures Classify(line, marker) == Heading(Trim(line[|marker|..]))
  {
    ClassifyHeading(line, marker);
  }

  /**
   * Neither page's heading marker can share a first character with the list
   * marker, so on both pages the heading and list tests exclude each other.
   */
  lemma MarkersExclusive(line: string)
    ensures !(StartsWith(line, ProfileMarker) && StartsWith(line, ListMarker))
    ensures !(StartsWith(line, ResumeMarker) && StartsWith(line, ListMarker))
  {
    if StartsWith(line, ListMarker) {
      assert line[0] == line[..1][0];
    }
  }

  /** `text.split('\n').map(classify)` */
  function Render(text: string, marker: string): (r: seq<Block>)
    ensures |r| == |SplitLines(text)|
    ensures forall i :: 0 <= i < |r| ==> r[i] == Classify(SplitLines(text)[i], marker)
  {
    var lines := SplitLines(text);
    seq(|lines|, i requires 0 <= i < |lines| => Classify(lines[i], marker))
  }

  /** One block per line: newline count plus one. */
  lemma RenderLength(text: string, marker: string)
    ensures |Render(text, marker)| == Count(text, '\n') + 1
  {
    SplitLinesCount(text);
  }

  /** Rendering keeps the order of the text: the blocks of `a\nb` are those of `a` then those of `b`. */
  lemma RenderConcat(a: string, b: string, marker: string)
    ensures Render(a + "\n" + b, marker) == Render(a, marker) + Render(b, marker)
  {
    SplitConcat(a, b);
  }

  /** Paragraph blocks keep their line, so their text never holds a newline. */
  lemma RenderParagraphNoNewline(text: string, marker: string, i: nat)
    requires i < |Render(text, marker)| && Render(text, marker)[i].Paragraph?
    ensures NoNewline(Render(text, marker)[i].text)
  {
    SplitLinesNoNewline(text);
  }

  /** The chat renderer: every line of the message as a paragraph, unchanged. */
  function RenderParagraphs(text: string): (r: seq<Block>)
    ensures |r| == |SplitLines(text)|
  {
    var lines := SplitLines(text);
    seq(|lines|, i requires 0 <= i < |lines| => Paragraph(lines[i]))
  }

  function Texts(blocks: seq<Block>): seq<string> {
    seq(|blocks|, i requires 0 <= i < |blocks| => blocks[i].text)
  }

  /**
   * The chat renderer loses nothing and adds nothing: all blocks are
   * paragraphs, and joining their texts with newlines gives back the message.
   */
  lemma RenderParagraphsFaithful(text: string)
    ensures forall i :: 0 <= i < |RenderParagraphs(text)| ==> RenderParagraphs(text)[i].Paragraph?
    ensures |RenderParagraphs(text)| == Count(text, '\n') + 1
    ensures JoinLines(Texts(RenderParagraphs(text))) == text
  {
    SplitLinesCount(text);
    assert Texts(RenderParagraphs(text)) == SplitLines(text);
    JoinSplitLines(text);
  }
}
