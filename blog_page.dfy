/** The blog listing: loading the posts, the title-or-author search, and the
    excerpt each card shows (the text of the first rich-text block). */
module BlogView {
  import opened Wrappers
  import opened JsStrings
  import Lists
  import Cms

  /** A post, as far as the page reads it; `content` is absent or `null`
      when `None`. */
  datatype Blog = Blog(title: string, author: string, content: Option<seq<Cms.Block>>)

  const DefaultExcerpt := "Read our latest article"

  /** The lower-cased query occurs in the lower-cased title or author. */
  predicate MatchesQuery(blog: Blog, query: string) {
    Includes(Lower(blog.title), Lower(query)) || Includes(Lower(blog.author), Lower(query))
  }

  function Matcher(query: string): Blog -> bool {
    blog => MatchesQuery(blog, query)
  }

  /** The list `handleSearch` shows for a query: all posts for the empty
      query, otherwise the matching ones. The query is not trimmed. */
  function SearchResult(blogs: seq<Blog>, query: string): seq<Blog> {
    if query == "" then blogs else Lists.Filter(blogs, Matcher(query))
  }

  /** A post is listed exactly when it is a post and the query is empty or
      matches its title or author. */
  lemma SearchResultMembers(blogs: seq<Blog>, query: string, b: Blog)
    ensures b in SearchResult(blogs, query) <==> b in blogs && (query == "" || MatchesQuery(b, query))
  {
    if query != "" {
      Lists.FilterMembers(blogs, Matcher(query), b);
    }
  }

  /** The search keeps the posts' order and repeats none. */
  lemma SearchResultIsSubsequence(blogs: seq<Blog>, query: string)
    ensures Lists.IsSubsequence(SearchResult(blogs, query), blogs)
  {
    if query == "" {
      Lists.SubsequenceReflexive(blogs);
    } else {
      Lists.FilterIsSubsequence(blogs, Matcher(query));
    }
  }

  /** A query of one space is not empty: it drops every post whose title and
      author hold no space. */
  lemma SpaceQueryFilters(blogs: seq<Blog>, b: Blog)
    requires ' ' !in b.title && ' ' !in b.author
    ensures b !in SearchResult(blogs, " ")
  {
    SearchResultMembers(blogs, " ", b);
    NoSpaceAfterLower(b.title);
    NoSpaceAfterLower(b.author);
  }

  lemma NoSpaceAfterLower(s: string)
    requires ' ' !in s
    ensures !Includes(Lower(s), " ")
  {
    var t := Lower(s);
    forall i | 0 <= i <= |t|
      ensures !(" " <= t[i..])
    {
      if i < |t| {
        assert s[i] in s;
        assert t[i..][0] == t[i];
      }
    }
  }

  /** The texts of the children that have one, in order. */
  function ChildTexts(children: seq<Cms.Child>): (texts: seq<string>)
    ensures |texts| <= |children|
    ensures forall k :: 0 <= k < |texts| ==> exists j :: 0 <= j < |children| && children[j] == Cms.Child(Some(texts[k]))
    ensures forall j :: 0 <= j < |children| && children[j].Child? && children[j].text.Some? ==> children[j].text.value in texts
    decreases |children|
  {
    if children == [] then []
    else
      var init, last := children[..|children| - 1], children[|children| - 1];
      var r := ChildTexts(init);
      assert forall k :: 0 <= k < |r| ==> exists j :: 0 <= j < |init| && init[j] == Cms.Child(Some(r[k])) && children[j] == init[j];
      assert forall j :: 0 <= j < |init| ==> children[j] == init[j];
      if last.Child? && last.text.Some? then r + [last.text.value] else r
  }

  /** One child contributes its text when it has one, and nothing otherwise. */
  lemma ChildTextsSingle(c: Cms.Child)
    ensures ChildTexts([c]) == if c.Child? && c.text.Some? then [c.text.value] else []
  {
    assert [c][..0] == [];
  }

  /** The texts of two runs of children are the texts of each, in order. */
  lemma {:induction false} ChildTextsAppend(a: seq<Cms.Child>, b: seq<Cms.Child>)
    ensures ChildTexts(a + b) == ChildTexts(a) + ChildTexts(b)
    decreases |b|
  {
    if b == [] {
      assert a + b == a;
    } else {
      var init, last := b[..|b| - 1], b[|b| - 1];
      assert (a + b)[..|a + b| - 1] == a + init;
      assert (a + b)[|a + b| - 1] == last;
      ChildTextsAppend(a, init);
    }
  }

  /** `getExcerpt`. */
  function Excerpt(blog: Blog): string {
    if blog.content.None? || |blog.content.value| == 0 then DefaultExcerpt
    else
      var first := blog.content.value[0];
      if first.Block? && first.blockType == Some("block") && first.children.ChildList? then
        Join(ChildTexts(first.children.items), " ")
      else DefaultExcerpt
  }

  /** Only the first block is consulted. */
  lemma ExcerptFirstBlockOnly(blog: Blog, first: Cms.Block, rest1: seq<Cms.Block>, rest2: seq<Cms.Block>)
    ensures Excerpt(blog.(content := Some([first] + rest1))) == Excerpt(blog.(content := Some([first] + rest2)))
  {
  }

  /** The excerpt of a rich-text first block is its child texts joined with
      single spaces: when no text holds a space, splitting it on spaces gives
      back exactly those texts, in order. */
  lemma ExcerptWords(blog: Blog)
    requires blog.content.Some? && |blog.content.value| > 0
    requires var first := blog.content.value[0];
      first.Block? && first.blockType == Some("block") && first.children.ChildList?
    requires var texts := ChildTexts(blog.content.value[0].children.items);
      |texts| > 0 && forall k :: 0 <= k < |texts| ==> ' ' !in texts[k]
    ensures Split(Excerpt(blog), ' ') == ChildTexts(blog.content.value[0].children.items)
  {
    SplitJoin(ChildTexts(blog.content.value[0].children.items), ' ');
  }

  /** No content, empty content, or a first block that is not a `block` with
      a children array: the default text. */
  lemma ExcerptDefault(blog: Blog)
    requires blog.content.None? || |blog.content.value| == 0
      || !(blog.content.value[0].Block? && blog.content.value[0].blockType == Some("block")
           && blog.content.value[0].children.ChildList?)
    ensures Excerpt(blog) == DefaultExcerpt
  {
  }

  /** The blog page's state. */
  class BlogPage {
    var blogs: seq<Blog>
    var filteredBlogs: seq<Blog>
    var loading: bool

    constructor()
      ensures blogs == [] && filteredBlogs == [] && loading
    {
      blogs := [];
      filteredBlogs := [];
      loading := true;
    }

    /** The mount effect: a successful fetch fills both lists with the same
        posts; loading ends whether or not it succeeds. */
    method Load(data: Option<seq<Blog>>)
      modifies this
      ensures data.Some? ==> blogs == data.value && filteredBlogs == data.value
      ensures data.None? ==> blogs == old(blogs) && filteredBlogs == old(filteredBlogs)
      ensures !loading
    {
      if data.Some? {
        blogs := data.value;
        filteredBlogs := data.value;
      }
      loading := false;
    }

    /** `handleSearch`: sets the shown list and never touches the posts. */
    method HandleSearch(query: string)
      modifies this
      ensures filteredBlogs == SearchResult(blogs, query)
      ensures blogs == old(blogs) && loading == old(loading)
    {
      if query == "" {
        filteredBlogs := blogs;
        return;
      }
      filteredBlogs := Lists.Filter(blogs, Matcher(query));
    }
  }
}
