/** Reading and writing Notion's text properties: the text of a `title` or
    `rich_text` property is the concatenation of its text blocks' contents,
    and a new property wraps its content in a single block. */
module NotionUtils {
  import opened Wrappers

  /** An element of a text array: a dictionary with a `text` entry (whose
      `content` may be absent), or anything else. */
  datatype Block = TextBlock(content: Option<string>) | OtherBlock

  /** The value under `title` or `rich_text`: a list of blocks, or not a
      list. */
  datatype TextArray = Blocks(blocks: seq<Block>) | NotAList

  /** The property data handed in: a string, `None`, another non-dictionary
      value, or a dictionary with its `title` and `rich_text` entries. */
  datatype PropInput =
    | Str(s: string)
    | NoneValue
    | NotDict
    | Dict(title: Option<TextArray>, richText: Option<TextArray>)

  /** The property type asked for. */
  datatype Kind = TitleKind | RichTextKind | AutoKind | OtherKind(name: string)

  /** The contents of the text blocks, in order, a missing content counting
      as empty; other elements are skipped. */
  function Contents(blocks: seq<Block>): (r: string)
    ensures (forall i :: 0 <= i < |blocks| ==> !blocks[i].TextBlock?) ==> r == ""
    decreases |blocks|
  {
    if blocks == [] then ""
    else
      (if blocks[0].TextBlock? then blocks[0].content.GetOr("") else "") + Contents(blocks[1..])
  }

  /** The text of an optional text array: empty when absent or not a list. */
  function Read(t: Option<TextArray>): string {
    if t.Some? && t.value.Blocks? then Contents(t.value.blocks) else ""
  }

  /** `extract_notion_text_content`: a string is its own text; `None` and
      other non-dictionaries read as empty; a dictionary reads the array of
      the requested type, automatic detection preferring `title` to
      `rich_text`. */
  function ExtractText(p: PropInput, kind: Kind): (r: string)
    ensures p.Str? ==> r == p.s
    ensures p.NoneValue? || p.NotDict? ==> r == ""
    ensures p.Dict? && kind.TitleKind? ==> r == Read(p.title)
    ensures p.Dict? && kind.RichTextKind? ==> r == Read(p.richText)
    ensures p.Dict? && kind.AutoKind? ==> r == (if p.title.Some? then Read(p.title) else Read(p.richText))
    ensures p.Dict? && kind.OtherKind? ==> r == ""
  {
    match p
    case Str(s) => s
    case NoneValue => ""
    case NotDict => ""
    case Dict(title, richText) => Read(ArrayFor(title, richText, kind))
  }

  /** The text array a type reads: automatic detection prefers `title`. */
  function ArrayFor(title: Option<TextArray>, richText: Option<TextArray>, kind: Kind): Option<TextArray> {
    match kind
    case AutoKind => if title.Some? then title else richText
    case TitleKind => title
    case RichTextKind => richText
    case OtherKind(_) => None
  }

  /** `create_notion_text_property`: one block under `title` for the title
      type, under `rich_text` for any other. */
  function CreateTextProperty(content: string, kind: Kind): (p: PropInput)
    ensures p.Dict?
    ensures kind.TitleKind? ==> p.title == Some(Blocks([TextBlock(Some(content))])) && p.richText.None?
    ensures !kind.TitleKind? ==> p.richText == Some(Blocks([TextBlock(Some(content))])) && p.title.None?
  {
    var texts := Some(Blocks([TextBlock(Some(content))]));
    if kind.TitleKind? then Dict(texts, None) else Dict(None, texts)
  }

  /** Reading back a created property gives its content for the title,
      rich-text and automatic types. An unknown type writes rich text but
      reads nothing. */
  lemma CreateExtractRoundTrip(content: string, kind: Kind)
    ensures !kind.OtherKind? ==> ExtractText(CreateTextProperty(content, kind), kind) == content
    ensures kind.OtherKind? ==> ExtractText(CreateTextProperty(content, kind), kind) == ""
  {
    assert Contents([TextBlock(Some(content))]) == content + Contents([]);
  }

  /** The contents of a concatenation of block lists. */
  lemma {:induction false} ContentsAppend(a: seq<Block>, b: seq<Block>)
    ensures Contents(a + b) == Contents(a) + Contents(b)
    decreases |a|
  {
    if a == [] {
      assert a + b == b;
    } else {
      assert (a + b)[1..] == a[1..] + b;
      ContentsAppend(a[1..], b);
    }
  }

  /** Splitting a text over several blocks reads back as the whole text. */
  lemma SplitBlocks(x: string, y: string)
    ensures ExtractText(Dict(None, Some(Blocks([TextBlock(Some(x)), TextBlock(Some(y))]))), RichTextKind) == x + y
  {
    ContentsAppend([TextBlock(Some(x))], [TextBlock(Some(y))]);
    assert Contents([TextBlock(Some(x))]) == x + Contents([]);
    assert Contents([TextBlock(Some(y))]) == y + Contents([]);
    assert [TextBlock(Some(x)), TextBlock(Some(y))] == [TextBlock(Some(x))] + [TextBlock(Some(y))];
  }
}
