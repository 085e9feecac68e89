/** The brand card's description: the first ten space-separated words of the
    first block's first span, with "..." when there are more, and the
    fallbacks for a missing description or a block of another shape. */
module BrandCardView {
  import opened Wrappers
  import opened JsStrings
  import Cms

  const MaxWords := 10

  /** What the description area renders. */
  datatype DescriptionView =
    | NoDescription                           // "No description available."
    | Snippet(shown: string, ellipsis: bool)  // the words, then "..." when `ellipsis`
    | RichText                                // the whole description through the rich-text renderer
    | Crash                                   // `children` is `null`: indexing it throws

  /** `text.split(' ').slice(0, 10).join(' ')`, and whether "..." follows. */
  function ExcerptOf(text: string): (v: DescriptionView)
    ensures v.Snippet?
  {
    var words := Split(text, ' ');
    var kept := if |words| <= MaxWords then words else words[..MaxWords];
    Snippet(Join(kept, " "), |words| > MaxWords)
  }

  /** The view for a brand's description. `typeof children === 'object'`
      holds for an array and for `null`; a first span that is missing or has
      no text renders as an empty snippet. */
  function BrandDescription(description: Option<seq<Cms.Block>>): (v: DescriptionView)
    ensures v == NoDescription <==> description.None? || description.value == []
    ensures v == Crash <==> (description.Some? && description.value != []
      && description.value[0].Block? && description.value[0].children.NullChildren?)
    ensures v == RichText <==> (description.Some? && description.value != []
      && !(description.value[0].Block? && !description.value[0].children.NoChildren?))
    ensures description.Some? && description.value != [] && description.value[0].Block?
      && description.value[0].children.ChildList? && description.value[0].children.items != []
      && description.value[0].children.items[0].Child? && description.value[0].children.items[0].text.Some?
      ==> v == ExcerptOf(description.value[0].children.items[0].text.value)
    ensures description.Some? && description.value != [] && description.value[0].Block?
      && description.value[0].children.ChildList?
      && !(description.value[0].children.items != [] && description.value[0].children.items[0].Child?
           && description.value[0].children.items[0].text.Some?)
      ==> v == Snippet("", false)
  {
    if description.None? || |description.value| == 0 then NoDescription
    else
      var first := description.value[0];
      if !first.Block? || first.children.NoChildren? then RichText
      else if first.children.NullChildren? then Crash
      else
        var spans := first.children.items;
        if |spans| > 0 && spans[0].Child? && spans[0].text.Some? then ExcerptOf(spans[0].text.value)
        else Snippet("", false)
  }

  /** The shown words are the text's first words, each still free of spaces,
      and "..." is added exactly when words were cut. */
  lemma ExcerptWords(text: string)
    ensures var words := Split(text, ' ');
      Split(ExcerptOf(text).shown, ' ') == words[..if |words| <= MaxWords then |words| else MaxWords]
      && (ExcerptOf(text).ellipsis <==> |words| > MaxWords)
  {
    var words := Split(text, ' ');
    var kept := if |words| <= MaxWords then words else words[..MaxWords];
    assert words[..|words|] == words;
    SplitJoin(kept, ' ');
  }

  /** A text of at most ten words is shown unchanged and without "...". */
  lemma ShortTextUnchanged(text: string)
    requires |Split(text, ' ')| <= MaxWords
    ensures ExcerptOf(text) == Snippet(text, false)
  {
    JoinSplit(text, ' ');
  }

  /** The shown text is always a prefix of the text. */
  lemma ExcerptIsPrefix(text: string)
    ensures ExcerptOf(text).shown <= text
  {
    var words := Split(text, ' ');
    if |words| <= MaxWords {
      JoinSplit(text, ' ');
    } else {
      JoinSplitPrefix(text, ' ', MaxWords);
    }
  }
}
