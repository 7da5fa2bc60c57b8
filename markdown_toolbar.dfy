/** The editor toolbar: a fixed table from buttons to the `(prefix, suffix)`
    pair each one asks the editor to wrap around the selection. */
module MarkdownToolbar {

  datatype Button =
    | Bold | Italic
    | Heading1 | Heading2 | Heading3 | Quote | BulletList | NumberedList
    | Note | Question | Warning
    | CodeFence | Math
    | Image | Link

  /** What a click does: wrap the selection, or open the image dialog. */
  datatype Action = Insert(prefix: string, suffix: string) | OpenImageModal

  /** The prefix of an admonition block of the given kind, with an empty title. */
  function AdmonitionOpen(kind: string): string {
    ":::" + kind + "{title=\"\"}\n"
  }

  const AdmonitionClose: string := "\n:::"

  /** Buttons that wrap the selection between a non-empty prefix and suffix. */
  predicate Wraps(b: Button) {
    b.Bold? || b.Italic? || b.Note? || b.Question? || b.Warning? || b.CodeFence? || b.Math?
  }

  /** The action of each button. The image button opens the dialog when the
      page supplies a handler, and inserts a template otherwise. */
  function ActionOf(b: Button, hasImageHandler: bool): (a: Action)
    ensures a.OpenImageModal? <==> b.Image? && hasImageHandler
    ensures Wraps(b) ==> a.Insert? && a.prefix != "" && a.suffix != ""
    ensures !Wraps(b) && a.Insert? ==> a.suffix == ""
    ensures b.Note? || b.Question? || b.Warning? ==> a.suffix == AdmonitionClose
  {
    match b
    case Bold => Insert("**", "**")
    case Italic => Insert("*", "*")
    case Heading1 => Insert("# ", "")
    case Heading2 => Insert("## ", "")
    case Heading3 => Insert("### ", "")
    case Quote => Insert("> ", "")
    case BulletList => Insert("- ", "")
    case NumberedList => Insert("1. ", "")
    case Note => Insert(AdmonitionOpen("note"), AdmonitionClose)
    case Question => Insert(AdmonitionOpen("question"), AdmonitionClose)
    case Warning => Insert(AdmonitionOpen("warning"), AdmonitionClose)
    case CodeFence => Insert("```\n", "\n```")
    case Math => Insert("$", "$")
    case Image => if hasImageHandler then OpenImageModal else Insert("![圖片描述](url)", "")
    case Link => Insert("[連結文字](url)", "")
  }
}
