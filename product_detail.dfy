/** The product detail view: the columns of the specification table (the
    distinct field keys of all variations), the header each column gets, the
    cell each variation shows under it, and the image the viewer shows. */
module ProductDetailView {
  import opened Wrappers
  import opened JsStrings
  import Lists
  import Cms

  /** The key a field contributes to the column list. An absent key and the
      empty key are both falsy: the `Set` keeps at most one of each and
      `filter(Boolean)` drops both, so an absent key is written as `""`. */
  function KeyText(f: Cms.Field): string {
    f.key.GetOr("")
  }

  /** `fields.map(field => field.key)`. */
  function FieldKeys(fields: seq<Cms.Field>): (r: seq<string>)
    ensures |r| == |fields| && forall j :: 0 <= j < |fields| ==> r[j] == KeyText(fields[j])
  {
    seq(|fields|, j requires 0 <= j < |fields| => KeyText(fields[j]))
  }

  /** `variations.flatMap(v => v.fields.map(field => field.key))`. */
  function AllFieldKeys(vs: seq<Cms.Variation>): seq<string>
    decreases |vs|
  {
    if vs == [] then [] else FieldKeys(vs[0].fields) + AllFieldKeys(vs[1..])
  }

  /** A key is collected exactly when some field of some variation has it. */
  lemma {:induction false} AllFieldKeysMembers(vs: seq<Cms.Variation>, k: string)
    ensures k in AllFieldKeys(vs) <==>
      exists i, j :: 0 <= i < |vs| && 0 <= j < |vs[i].fields| && KeyText(vs[i].fields[j]) == k
    decreases |vs|
  {
    if vs != [] {
      AllFieldKeysMembers(vs[1..], k);
      var own := FieldKeys(vs[0].fields);
      if k in own {
        var j :| 0 <= j < |own| && own[j] == k;
        assert KeyText(vs[0].fields[j]) == k;
      }
      if exists i, j :: 0 <= i < |vs| && 0 <= j < |vs[i].fields| && KeyText(vs[i].fields[j]) == k {
        var i, j :| 0 <= i < |vs| && 0 <= j < |vs[i].fields| && KeyText(vs[i].fields[j]) == k;
        if i == 0 {
          assert own[j] == k;
        } else {
          assert vs[1..][i - 1] == vs[i];
        }
      }
      if exists i, j :: 0 <= i < |vs[1..]| && 0 <= j < |vs[1..][i].fields| && KeyText(vs[1..][i].fields[j]) == k {
        var i, j :| 0 <= i < |vs[1..]| && 0 <= j < |vs[1..][i].fields| && KeyText(vs[1..][i].fields[j]) == k;
        assert vs[i + 1] == vs[1..][i];
      }
    }
  }

  function Id(k: string): string {
    k
  }

  function Truthy(k: string): bool {
    k != ""
  }

  /** `getUniqueFieldNames`: no variations give no columns; otherwise the
      collected keys with repeats removed and falsy keys dropped. */
  function UniqueFieldNames(variations: Option<seq<Cms.Variation>>): (names: seq<string>)
    ensures variations.None? || variations.value == [] ==> names == []
    ensures forall i, j :: 0 <= i < j < |names| ==> names[i] != names[j]
    ensures forall i :: 0 <= i < |names| ==> names[i] != ""
  {
    if variations.None? || |variations.value| == 0 then []
    else
      var all := AllFieldKeys(variations.value);
      Lists.DedupFilterCommute(all, Id, Truthy);
      assert Lists.DistinctKeys(Lists.DedupBy(Lists.Filter(all, Truthy), Id), Id);
      Lists.Filter(Lists.DedupBy(all, Id), Truthy)
  }

  /** With `Id` as the key, de-duplication keeps exactly the members. */
  lemma DedupMembers(s: seq<string>, k: string)
    ensures k in Lists.DedupBy(s, Id) <==> k in s
  {
    var r := Lists.DedupBy(s, Id);
    Lists.KeysMembers(s, Id);
    Lists.KeysMembers(r, Id);
    if k in s {
      var i :| 0 <= i < |s| && s[i] == k;
      assert Id(s[i]) in Lists.Keys(r, Id);
    }
    if k in r {
      var i :| 0 <= i < |r| && r[i] == k;
      assert Id(r[i]) in Lists.Keys(s, Id);
    }
  }

  /** Every non-empty key of every field of every variation is a column, and
      nothing else is. */
  lemma UniqueFieldNamesMembers(vs: seq<Cms.Variation>, k: string)
    ensures k in UniqueFieldNames(Some(vs)) <==>
      k != "" && exists i, j :: 0 <= i < |vs| && 0 <= j < |vs[i].fields| && vs[i].fields[j].key == Some(k)
  {
    AllFieldKeysMembers(vs, k);
    if vs != [] {
      var all := AllFieldKeys(vs);
      Lists.FilterMembers(Lists.DedupBy(all, Id), Truthy, k);
      DedupMembers(all, k);
    }
    if k != "" && exists i, j :: 0 <= i < |vs| && 0 <= j < |vs[i].fields| && KeyText(vs[i].fields[j]) == k {
      var i, j :| 0 <= i < |vs| && 0 <= j < |vs[i].fields| && KeyText(vs[i].fields[j]) == k;
      assert vs[i].fields[j].key == Some(k);
    }
    if exists i, j :: 0 <= i < |vs| && 0 <= j < |vs[i].fields| && vs[i].fields[j].key == Some(k) {
      var i, j :| 0 <= i < |vs| && 0 <= j < |vs[i].fields| && vs[i].fields[j].key == Some(k);
      assert KeyText(vs[i].fields[j]) == k;
    }
  }

  /** The columns come in first-occurrence order: they are the non-empty keys,
      in collection order, with repeats removed. */
  lemma UniqueFieldNamesOrder(vs: seq<Cms.Variation>)
    requires vs != []
    ensures UniqueFieldNames(Some(vs)) == Lists.DedupBy(Lists.Filter(AllFieldKeys(vs), Truthy), Id)
    ensures Lists.IsSubsequence(UniqueFieldNames(Some(vs)), AllFieldKeys(vs))
  {
    var all := AllFieldKeys(vs);
    Lists.DedupFilterCommute(all, Id, Truthy);
    Lists.DedupIsSubsequence(all, Id);
    Lists.FilterIsSubsequence(Lists.DedupBy(all, Id), Truthy);
    Lists.SubsequenceTransitive(Lists.Filter(Lists.DedupBy(all, Id), Truthy), Lists.DedupBy(all, Id), all);
  }

  const RefHeader := "REF No."

  /** The header of a column: "REF No." for any key mentioning REF in any
      case, otherwise the key with its first character upper-cased. */
  function HeaderText(fieldKey: string): (h: string)
    ensures !Includes(Upper(fieldKey), "REF") ==>
      |h| == |fieldKey| && (fieldKey != "" ==> h[0] == UpperChar(fieldKey[0]) && h[1..] == fieldKey[1..])
  {
    if Includes(Upper(fieldKey), "REF") then RefHeader else Capitalize(fieldKey)
  }

  /** A header reads "REF No." exactly when the upper-cased key contains REF:
      a key that capitalises to "REF No." already contains it. */
  lemma HeaderRefIff(fieldKey: string)
    ensures HeaderText(fieldKey) == RefHeader <==> Includes(Upper(fieldKey), "REF")
  {
    if Capitalize(fieldKey) == RefHeader {
      assert fieldKey != "";
      assert fieldKey[1..] == RefHeader[1..];
      var u := Upper(fieldKey);
      assert u[0] == 'R' && u[1] == 'E' && u[2] == 'F';
      assert "REF" <= u[0..];
    }
  }

  /** `f => f.key === fieldKey`: a field without a key matches no column. */
  function HasKey(fieldKey: string): Cms.Field -> bool {
    (f: Cms.Field) => f.key == Some(fieldKey)
  }

  /** `field?.value || "-"` for `fields.find(f => f.key === fieldKey)`. */
  function Cell(fields: seq<Cms.Field>, fieldKey: string): (c: string)
    ensures c != ""
    ensures (forall j :: 0 <= j < |fields| ==> fields[j].key != Some(fieldKey)) ==> c == "-"
  {
    match Lists.FirstIndex(fields, HasKey(fieldKey))
    case None => "-"
    case Some(i) =>
      var value := fields[i].value.GetOr("");
      if value == "" then "-" else value
  }

  /** When field `i` is the first with the column's key, the cell is its
      value, or "-" when that value is absent or empty. */
  lemma CellOfFirstMatch(fields: seq<Cms.Field>, fieldKey: string, i: nat)
    requires i < |fields| && fields[i].key == Some(fieldKey)
    requires forall j :: 0 <= j < i ==> fields[j].key != Some(fieldKey)
    ensures Cell(fields, fieldKey) == if fields[i].value.GetOr("") == "" then "-" else fields[i].value.value
  {
    var p := HasKey(fieldKey);
    assert p(fields[i]);
    var r := Lists.FirstIndex(fields, p);
    assert r.Some?;
  }

  /** A table row: one cell per column, in column order. */
  function Row(variation: Cms.Variation, names: seq<string>): (cells: seq<string>)
    ensures |cells| == |names|
    ensures forall i :: 0 <= i < |names| ==> cells[i] == Cell(variation.fields, names[i])
  {
    seq(|names|, i requires 0 <= i < |names| => Cell(variation.fields, names[i]))
  }

  /** The image viewer's state: the large image, initially the main image. */
  class ImageViewer {
    const mainImage: Option<Cms.Image>
    var selectedImage: Option<Cms.Image>

    constructor(mainImage: Option<Cms.Image>)
      ensures this.mainImage == mainImage && selectedImage == mainImage
    {
      this.mainImage := mainImage;
      selectedImage := mainImage;
    }

    /** A click on the main image's thumbnail. */
    method SelectMain()
      modifies this
      ensures selectedImage == mainImage
    {
      selectedImage := mainImage;
    }

    /** A click on a gallery thumbnail. */
    method Select(image: Cms.Image)
      modifies this
      ensures selectedImage == Some(image)
      ensures IsHighlighted(image)
    {
      selectedImage := Some(image);
    }

    /** The thumbnail of the shown image gets the highlighted border. */
    predicate IsHighlighted(image: Cms.Image)
      reads this
    {
      selectedImage == Some(image)
    }
  }
}
