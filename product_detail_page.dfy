/** The product detail page: the breadcrumb trail built above the product,
    and the schema.org `Product` record written into the page as JSON-LD. */
module ProductDetailPageView {
  import opened Wrappers
  import opened JsStrings
  import Cms
  import ProductsView

  /** One breadcrumb: its label (`caption`), a link when it has one, and whether it is the
      current page. */
  datatype Crumb = Crumb(caption: string, href: Option<string>, isCurrent: bool)

  const HomeCrumb := Crumb("Home", Some("/"), false)
  const ProductsCrumb := Crumb("Products", Some("/products"), false)
  const CategoryPrefix := "/products/category/"

  /** The path segment of a department: lower-cased, every space a `-`. */
  function DepartmentSlug(name: string): (slug: string)
    ensures |slug| == |name| && ' ' !in slug
  {
    ReplaceAllChar(Lower(name), ' ', '-')
  }

  /** The crumb trail of the page; a missing product shows the not-found view
      and no trail. The trail is built by successive pushes. */
  method Breadcrumbs(product: Option<Cms.Product>) returns (items: Option<seq<Crumb>>)
    ensures items.None? <==> product.None?
    ensures product.Some? ==>
      var p, c := product.value, items.value;
      |c| == (if p.department.Some? then 4 else 3)
      && c[0] == HomeCrumb && c[1] == ProductsCrumb
      && (p.department.Some? ==>
            c[2] == Crumb(p.department.value.name, Some(CategoryPrefix + DepartmentSlug(p.department.value.name)), false))
      && c[|c| - 1] == Crumb(p.title, None, true)
      && (forall i :: 0 <= i < |c| - 1 ==> !c[i].isCurrent && c[i].href.Some?)
  {
    if product.None? {
      return None;
    }
    var p := product.value;
    var trail := [HomeCrumb, ProductsCrumb];
    if p.department.Some? {
      var name := p.department.value.name;
      trail := trail + [Crumb(name, Some(CategoryPrefix + DepartmentSlug(name)), false)];
    }
    trail := trail + [Crumb(p.title, None, true)];
    items := Some(trail);
  }

  /** A department name the category page gives back unchanged: no `-`, a
      word's first character is not a lower-case letter, and no other
      character is an upper-case one. */
  predicate IsTitleCase(name: string) {
    '-' !in name
    && forall i :: 0 <= i < |name| ==>
      if i == 0 || name[i - 1] == ' ' then !('a' <= name[i] <= 'z') else !('A' <= name[i] <= 'Z')
  }

  /** Character `i` of the category title reached from a department name. */
  lemma TitleOfSlugAt(name: string, i: nat)
    requires i < |name|
    ensures |ProductsView.FormatSlug(DepartmentSlug(name))| == |name|
    ensures ProductsView.FormatSlug(DepartmentSlug(name))[i] ==
      if name[i] == ' ' || name[i] == '-' then ' '
      else if i == 0 || name[i - 1] == ' ' || name[i - 1] == '-' then UpperChar(LowerChar(name[i]))
      else LowerChar(name[i])
  {
    var slug := DepartmentSlug(name);
    ProductsView.FormatSlugChars(slug);
    var title := ProductsView.FormatSlug(slug);
    assert Lower(name)[i] == LowerChar(name[i]);
    assert slug[i] == if Lower(name)[i] == ' ' then '-' else Lower(name)[i];
    assert title[i] ==
      if slug[i] == '-' then ' '
      else if i == 0 || slug[i - 1] == '-' then UpperChar(slug[i])
      else slug[i];
    if i > 0 {
      assert Lower(name)[i - 1] == LowerChar(name[i - 1]);
      assert slug[i - 1] == if Lower(name)[i - 1] == ' ' then '-' else Lower(name)[i - 1];
    }
  }

  /** Following a department crumb leads to the category page of its slug,
      and that page's title is the department's name exactly when the name
      is in title case. */
  lemma DepartmentCrumbRoundTrip(name: string)
    ensures ProductsView.FormatSlug(DepartmentSlug(name)) == name <==> IsTitleCase(name)
  {
    var title := ProductsView.FormatSlug(DepartmentSlug(name));
    if title == name {
      forall i | 0 <= i < |name|
        ensures name[i] != '-'
      {
        TitleOfSlugAt(name, i);
      }
      forall i | 0 <= i < |name|
        ensures if i == 0 || name[i - 1] == ' ' then !('a' <= name[i] <= 'z') else !('A' <= name[i] <= 'Z')
      {
        TitleOfSlugAt(name, i);
      }
    }
    if IsTitleCase(name) {
      if name != [] {
        TitleOfSlugAt(name, 0);
      }
      forall i | 0 <= i < |name|
        ensures title[i] == name[i]
      {
        TitleOfSlugAt(name, i);
        if i > 0 {
          assert name[i - 1] != '-';
        }
      }
    }
  }

  /** The texts one block contributes to `flatMap`: one per child, `""` for a
      child without text, and a single `""` for a block without a children
      array (`undefined` becomes one empty element once joined). */
  function BlockParts(block: Cms.Block): (parts: seq<string>)
    ensures block.Block? && block.children.ChildList? ==> |parts| == |block.children.items|
    ensures block.Block? && block.children.ChildList? ==>
      forall t :: t != "" ==> (t in parts <==> Cms.Child(Some(t)) in block.children.items)
    ensures !(block.Block? && block.children.ChildList?) ==> parts == [""]
    ensures |parts| >= 1 || (block.Block? && block.children.ChildList? && block.children.items == [])
  {
    if block.Block? && block.children.ChildList? then
      var items := block.children.items;
      var parts := seq(|items|, k requires 0 <= k < |items| =>
        if items[k].Child? && items[k].text.Some? then items[k].text.value else "");
      assert forall t :: t != "" ==> (t in parts <==> Cms.Child(Some(t)) in items) by {
        forall t | t != ""
          ensures t in parts <==> Cms.Child(Some(t)) in items
        {
          if t in parts {
            var k :| 0 <= k < |parts| && parts[k] == t;
            assert items[k] == Cms.Child(Some(t));
          }
          if Cms.Child(Some(t)) in items {
            var k :| 0 <= k < |items| && items[k] == Cms.Child(Some(t));
            assert parts[k] == t;
          }
        }
      }
      parts
    else [""]
  }

  /** `flatMap` over the blocks: the parts of each block, block after block. */
  function DescriptionParts(blocks: seq<Cms.Block>): seq<string>
    decreases |blocks|
  {
    if blocks == [] then [] else BlockParts(blocks[0]) + DescriptionParts(blocks[1..])
  }

  /** A single block contributes exactly its own parts. */
  lemma DescriptionPartsSingle(block: Cms.Block)
    ensures DescriptionParts([block]) == BlockParts(block)
  {
    assert [block][1..] == [];
  }

  /** The parts of two runs of blocks are the parts of each, in order. */
  lemma {:induction false} DescriptionPartsAppend(a: seq<Cms.Block>, b: seq<Cms.Block>)
    ensures DescriptionParts(a + b) == DescriptionParts(a) + DescriptionParts(b)
    decreases |a|
  {
    if a == [] {
      assert a + b == b;
    } else {
      assert (a + b)[0] == a[0];
      assert (a + b)[1..] == a[1..] + b;
      DescriptionPartsAppend(a[1..], b);
    }
  }

  /** A non-empty text is among the parts exactly when some block with a
      children array has a child with that text. */
  lemma {:induction false} DescriptionPartsMembers(blocks: seq<Cms.Block>, t: string)
    requires t != ""
    ensures t in DescriptionParts(blocks) <==>
      exists i :: 0 <= i < |blocks| && blocks[i].Block? && blocks[i].children.ChildList?
        && Cms.Child(Some(t)) in blocks[i].children.items
    decreases |blocks|
  {
    if blocks != [] {
      DescriptionPartsMembers(blocks[1..], t);
      var b := blocks[0];
      if !(b.Block? && b.children.ChildList?) {
        assert BlockParts(b) == [""];
      }
      if exists i :: 0 <= i < |blocks| && blocks[i].Block? && blocks[i].children.ChildList?
           && Cms.Child(Some(t)) in blocks[i].children.items {
        var i :| 0 <= i < |blocks| && blocks[i].Block? && blocks[i].children.ChildList?
           && Cms.Child(Some(t)) in blocks[i].children.items;
        if i > 0 {
          assert blocks[1..][i - 1] == blocks[i];
        }
      }
      if exists i :: 0 <= i < |blocks[1..]| && blocks[1..][i].Block? && blocks[1..][i].children.ChildList?
           && Cms.Child(Some(t)) in blocks[1..][i].children.items {
        var i :| 0 <= i < |blocks[1..]| && blocks[1..][i].Block? && blocks[1..][i].children.ChildList?
           && Cms.Child(Some(t)) in blocks[1..][i].children.items;
        assert blocks[i + 1] == blocks[1..][i];
      }
    }
  }

  /** The JSON-LD description: the parts of all blocks joined by one space,
      or `""` without a description. */
  function Description(description: Option<seq<Cms.Block>>): (d: string)
    ensures description.None? || description.value == [] ==> d == ""
  {
    if description.None? then "" else Join(DescriptionParts(description.value), " ")
  }

  /** When no text holds a space, the description splits back, at its
      spaces, into exactly the texts of all blocks, in order. */
  lemma DescriptionWords(blocks: seq<Cms.Block>)
    requires |DescriptionParts(blocks)| >= 1
    requires forall k :: 0 <= k < |DescriptionParts(blocks)| ==> ' ' !in DescriptionParts(blocks)[k]
    ensures Split(Description(Some(blocks)), ' ') == DescriptionParts(blocks)
  {
    SplitJoin(DescriptionParts(blocks), ' ');
  }

  const CdnPrefix := "https://cdn.sanity.io/images/"

  /** The JSON-LD image: the CDN address of the main image when it is an
      `image` with a non-empty reference, `""` otherwise. The reference
      loses its first `image-`, and its first `-jpg` becomes `.jpg`. */
  function ImageUrl(mainImage: Option<Cms.Image>): (url: string)
    ensures url != "" <==> (mainImage.Some? && mainImage.value.imageType == "image"
      && mainImage.value.asset.ref.Some? && mainImage.value.asset.ref.value != "")
  {
    if mainImage.Some? && mainImage.value.imageType == "image"
       && mainImage.value.asset.ref.Some? && mainImage.value.asset.ref.value != "" then
      var ref := mainImage.value.asset.ref.value;
      CdnPrefix + ReplaceFirst(ReplaceFirst(ref, "image-", ""), "-jpg", ".jpg")
    else ""
  }

  /** A reference `image-<id>-jpg` whose id holds no `-jpg` gives the address
      `<cdn>/<id>.jpg`. */
  lemma ImageUrlOfJpegRef(id: string, assetType: Option<string>)
    requires !Includes(id, "-jpg")
    ensures ImageUrl(Some(Cms.Image("image", Cms.ImageAsset(Some("image-" + id + "-jpg"), assetType))))
      == CdnPrefix + id + ".jpg"
  {
    StripImagePrefix(id);
    FixJpegSuffix(id);
  }

  lemma StripImagePrefix(id: string)
    ensures ReplaceFirst("image-" + id + "-jpg", "image-", "") == id + "-jpg"
  {
    assert "image-" + id + "-jpg" == [] + "image-" + (id + "-jpg");
    ReplaceFirstAt([], "image-", id + "-jpg", "");
  }

  lemma FixJpegSuffix(id: string)
    requires !Includes(id, "-jpg")
    ensures ReplaceFirst(id + "-jpg", "-jpg", ".jpg") == id + ".jpg"
  {
    NoStraddlingJpg(id);
    ReplaceFirstAt(id, "-jpg", [], ".jpg");
    assert id + "-jpg" + [] == id + "-jpg";
    assert id + ".jpg" + [] == id + ".jpg";
  }

  /** `-jpg` cannot start inside `id` unless `id` contains it: its `-`
      occurs only at its start. */
  lemma NoStraddlingJpg(id: string)
    requires !Includes(id, "-jpg")
    ensures forall j :: 0 <= j < |id| ==> !("-jpg" <= (id + "-jpg" + [])[j..])
  {
    var s := id + "-jpg" + [];
    forall j | 0 <= j < |id|
      ensures !("-jpg" <= s[j..])
    {
      if j + 4 <= |id| {
        assert !("-jpg" <= id[j..]);
        assert s[j..j + 4] == id[j..j + 4];
      } else {
        var k := |id| - j;
        assert s[j..][k] == '-';
        assert "-jpg"[k] != '-';
      }
    }
  }

  /** The schema.org record: name, description, brand name, category and
      image, each defaulting to `""`. */
  datatype StructuredData = StructuredData(
    name: string, description: string, brandName: string, category: string, image: string)

  function ProductStructuredData(p: Cms.Product): (d: StructuredData)
    ensures d.name == p.title
    ensures d.brandName == "" <==> p.brand.None? || p.brand.value.name == ""
    ensures p.brand.Some? ==> d.brandName == p.brand.value.name
    ensures d.category == "" <==> p.department.None? || p.department.value.name == ""
    ensures p.department.Some? ==> d.category == p.department.value.name
    ensures d.description == Description(p.description)
    ensures d.image == ImageUrl(p.mainImage)
  {
    StructuredData(
      p.title,
      Description(p.description),
      if p.brand.Some? then p.brand.value.name else "",
      if p.department.Some? then p.department.value.name else "",
      ImageUrl(p.mainImage))
  }
}
