/**
 * The markdown editor's toolbar. Every button wraps the textarea's current
 * selection in a fixed prefix and suffix (`insertText`) and then selects the
 * original text again inside the wrapping. Reading the selection from the
 * page and focusing the textarea are outside the model: the selection is a
 * parameter, `None` when the page has no textarea, and the new selection is
 * part of the result.
 */
module MarkdownEditor {
  import opened JsSupport

  datatype Selection = Selection(start: nat, end: nat)

  /** The editor's text after an insertion, and the selection set on the textarea. */
  datatype Edit = Edit(text: string, selection: Selection)

  /** A selection the textarea can report: in order and within the text. */
  predicate InText(text: string, sel: Selection)
  {
    sel.start <= sel.end <= |text|
  }

  /**
   * `insertText(prefix, suffix)`: the text before the selection, the prefix,
   * the selected text, the suffix and the text after it; the new selection
   * is the old one moved right by the prefix's length. Without a textarea
   * nothing happens.
   */
  function InsertText(markdown: string, sel: Option<Selection>, prefix: string, suffix: string): (r: Option<Edit>)
    ensures sel.None? <==> r.None?
    ensures r.Some? ==> r.value.selection == Selection(sel.value.start + |prefix|, sel.value.end + |prefix|)
    ensures r.Some? && InText(markdown, sel.value) ==> |r.value.text| == |markdown| + |prefix| + |suffix|
  {
    match sel
    case None => None
    case Some(s) =>
      var selected := Substring(markdown, s.start, s.end);
      var before := Substring(markdown, 0, s.start);
      var after := Substring(markdown, s.end, |markdown|);
      Some(Edit(before + prefix + selected + suffix + after, Selection(s.start + |prefix|, s.end + |prefix|)))
  }

  /** For a selection within the text, `substring` takes plain slices. */
  lemma InsertTextSplice(markdown: string, sel: Selection, prefix: string, suffix: string)
    requires InText(markdown, sel)
    ensures InsertText(markdown, Some(sel), prefix, suffix).value.text
            == markdown[..sel.start] + prefix + markdown[sel.start..sel.end] + suffix + markdown[sel.end..]
  {
    assert markdown[0..sel.start] == markdown[..sel.start];
    assert markdown[sel.end..|markdown|] == markdown[sel.end..];
  }

  /**
   * For a selection within the text, the insertion keeps the text before the
   * selection and after it exactly, puts the prefix and the suffix around the
   * selected text, and the new selection covers exactly the text that was
   * selected.
   */
  lemma InsertTextLayout(markdown: string, sel: Selection, prefix: string, suffix: string)
    requires InText(markdown, sel)
    ensures var e := InsertText(markdown, Some(sel), prefix, suffix).value;
            var p := |prefix|;
            && e.text[..sel.start] == markdown[..sel.start]
            && e.text[sel.start..sel.start + p] == prefix
            && e.text[e.selection.start..e.selection.end] == markdown[sel.start..sel.end]
            && e.text[e.selection.end..e.selection.end + |suffix|] == suffix
            && e.text[e.selection.end + |suffix|..] == markdown[sel.end..]
  {
    InsertTextSplice(markdown, sel, prefix, suffix);
    var e := InsertText(markdown, Some(sel), prefix, suffix).value;
    var before := markdown[..sel.start];
    var selected := markdown[sel.start..sel.end];
    var after := markdown[sel.end..];
    var t := e.text;
    var a := sel.start;
    var b := a + |prefix|;
    var c := b + |selected|;
    var d := c + |suffix|;
    assert t[..a] == before;
    assert t[a..b] == prefix;
    assert t[b..c] == selected;
    assert t[c..d] == suffix;
    assert t[d..] == after;
  }

  /**
   * Removing the inserted prefix and suffix again gives back the original
   * text, so an insertion loses nothing.
   */
  lemma InsertTextUndo(markdown: string, sel: Selection, prefix: string, suffix: string)
    requires InText(markdown, sel)
    ensures var e := InsertText(markdown, Some(sel), prefix, suffix).value;
            e.text[..sel.start] + e.text[e.selection.start..e.selection.end] + e.text[e.selection.end + |suffix|..]
            == markdown
  {
    InsertTextLayout(markdown, sel, prefix, suffix);
    assert markdown == markdown[..sel.start] + markdown[sel.start..sel.end] + markdown[sel.end..];
  }

  // ---------------------------------------------------------------------------
  // The toolbar buttons
  // ---------------------------------------------------------------------------

  datatype Tool = Heading(level: nat) | Bold | Italic | Link | Code | CodeBlock | BulletList | NumberedList
                | Blockquote | Table

  const TableTemplate: string := "| Header 1 | Header 2 |\n| -------- | -------- |\n| Cell 1   | Cell 2   |\n"

  /** `handleHeading(level)`'s prefix: `'#'.repeat(level) + ' '`. */
  function HeadingPrefix(level: nat): (p: string)
    ensures |p| == level + 1
    ensures forall k :: 0 <= k < level ==> p[k] == '#'
    ensures p[level] == ' '
  {
    Repeat('#', level) + " "
  }

  /** The prefix and suffix each toolbar handler passes to `insertText` (the suffix defaults to `''`). */
  function Affixes(tool: Tool): (r: (string, string))
    ensures r.0 != ""
    ensures r.1 == "" <==> tool.Heading? || tool == BulletList || tool == NumberedList || tool == Blockquote || tool == Table
  {
    match tool
    case Heading(level) => (HeadingPrefix(level), "")
    case Bold => ("**", "**")
    case Italic => ("*", "*")
    case Link => ("[", "](url)")
    case Code => ("`", "`")
    case CodeBlock => ("```\n", "\n```")
    case BulletList => ("- ", "")
    case NumberedList => ("1. ", "")
    case Blockquote => ("> ", "")
    case Table => (TableTemplate, "")
  }

  /** A toolbar click: `insertText` with the button's affixes. */
  function ApplyTool(markdown: string, sel: Option<Selection>, tool: Tool): (r: Option<Edit>)
    ensures sel.None? <==> r.None?
    ensures r.Some? ==> r.value.selection.start == sel.value.start + |Affixes(tool).0|
                        && r.value.selection.end - r.value.selection.start == sel.value.end - sel.value.start
    ensures r.Some? && InText(markdown, sel.value) ==>
              |r.value.text| == |markdown| + |Affixes(tool).0| + |Affixes(tool).1|
  {
    InsertText(markdown, sel, Affixes(tool).0, Affixes(tool).1)
  }

  /** With an empty suffix, the insertion only puts the prefix in front of the selection. */
  lemma InsertPrefixOnly(markdown: string, sel: Selection, prefix: string)
    requires InText(markdown, sel)
    ensures InsertText(markdown, Some(sel), prefix, "").value.text == markdown[..sel.start] + prefix + markdown[sel.start..]
  {
    InsertTextSplice(markdown, sel, prefix, "");
    var a := markdown[..sel.start];
    var b := markdown[sel.start..sel.end];
    var c := markdown[sel.end..];
    assert markdown[sel.start..] == b + c;
    calc {
      a + prefix + b + "" + c;
      a + prefix + (b + c);
    }
  }

  /**
   * The line-start tools (headings, lists, quote, table) only insert before
   * the selection: everything from the selection on is the original text.
   */
  lemma PrefixOnlyTools(markdown: string, sel: Selection, tool: Tool)
    requires InText(markdown, sel)
    requires tool.Heading? || tool == BulletList || tool == NumberedList || tool == Blockquote || tool == Table
    ensures var e := ApplyTool(markdown, Some(sel), tool).value;
            e.text == markdown[..sel.start] + Affixes(tool).0 + markdown[sel.start..]
  {
    var (prefix, suffix) := Affixes(tool);
    assert suffix == "";
    InsertPrefixOnly(markdown, sel, prefix);
  }

  /** On an empty editor the result is just the prefix and the suffix, with the cursor between them. */
  lemma InsertOnEmpty(prefix: string, suffix: string)
    ensures InsertText("", Some(Selection(0, 0)), prefix, suffix) == Some(Edit(prefix + suffix, Selection(|prefix|, |prefix|)))
  {
    assert Substring("", 0, 0) == "";
    assert "" + prefix + "" + suffix + "" == prefix + suffix;
  }

  /** Clicking H3 in an empty editor gives `### `. */
  lemma HeadingOnEmpty()
    ensures ApplyTool("", Some(Selection(0, 0)), Heading(3)).value.text == "### "
  {
    assert HeadingPrefix(3) == "### ";
    InsertOnEmpty("### ", "");
  }

  /**
   * Clicks on an empty editor, with the text each produces: `****` for bold,
   * `**` for italic, `[](url)` for a link, two backticks for code and an empty
   * fenced block for a code block; the cursor lands between the affixes.
   */
  lemma WrappingToolsOnEmpty()
    ensures ApplyTool("", Some(Selection(0, 0)), Bold) == Some(Edit("****", Selection(2, 2)))
    ensures ApplyTool("", Some(Selection(0, 0)), Italic) == Some(Edit("**", Selection(1, 1)))
    ensures ApplyTool("", Some(Selection(0, 0)), Link) == Some(Edit("[](url)", Selection(1, 1)))
    ensures ApplyTool("", Some(Selection(0, 0)), Code) == Some(Edit("``", Selection(1, 1)))
    ensures ApplyTool("", Some(Selection(0, 0)), CodeBlock) == Some(Edit("```\n\n```", Selection(4, 4)))
  {
    InsertOnEmpty("**", "**");
    assert "**" + "**" == "****";
    InsertOnEmpty("*", "*");
    assert "*" + "*" == "**";
    InsertOnEmpty("[", "](url)");
    assert "[" + "](url)" == "[](url)";
    InsertOnEmpty("`", "`");
    assert "`" + "`" == "``";
    InsertOnEmpty("```\n", "\n```");
    assert "```\n" + "\n```" == "```\n\n```";
  }

  /** A link around a selected word keeps the word as the link text, still selected. */
  lemma LinkAroundWord()
    ensures ApplyTool("see docs now", Some(Selection(4, 8)), Link)
            == Some(Edit("see [docs](url) now", Selection(5, 9)))
  {
    var m := "see docs now";
    assert Affixes(Link) == ("[", "](url)");
    assert ApplyTool(m, Some(Selection(4, 8)), Link) == InsertText(m, Some(Selection(4, 8)), "[", "](url)");
    InsertTextSplice(m, Selection(4, 8), "[", "](url)");
    assert m[..4] == "see ";
    assert m[4..8] == "docs";
    assert m[8..] == " now";
    assert "see " + "[" + "docs" + "](url)" + " now" == "see [docs](url) now";
  }
}
