/** The filtered-products request of the products API: two optional clauses
    over brand and department references, substituted into the query
    template. The query language itself is opaque here; the fetch is a
    parameter (`None` when the awaited call throws). */
module ProductApi {
  import opened Wrappers
  import opened JsStrings
  import Cms

  /** `FilterParams`: both lists optional. */
  datatype FilterParams = FilterParams(brands: Option<seq<string>>, departments: Option<seq<string>>)

  const BrandPlaceholder := "$brandFilter"
  const DepartmentPlaceholder := "$departmentFilter"

  /** The filtered-products template, split around its two placeholders. */
  const TemplateHead := "*[_type==\"product\" \n  "
  const TemplateMiddle := "\n  "
  const TemplateTail := "\n] | order(_createdAt desc) {\n  _id,\n  _createdAt,\n  _updatedAt,\n  title,\n  brand->{name, _id},\n  department->{name, _id},\n  description,\n  mainImage,\n  \"slug\": slug,\n  variations\n}"

  const FilteredProductsQuery := TemplateHead + BrandPlaceholder + TemplateMiddle + DepartmentPlaceholder + TemplateTail

  /** `ids.map(id => `"${id}"`).join(',')`. */
  function QuotedList(ids: seq<string>): string {
    Join(seq(|ids|, i requires 0 <= i < |ids| => "\"" + ids[i] + "\""), ",")
  }

  /** Ids without a comma can be read back: the list splits at its commas
      into the quoted ids, one per id, in order. */
  lemma QuotedListRoundTrip(ids: seq<string>)
    requires ids != []
    requires forall i :: 0 <= i < |ids| ==> ',' !in ids[i]
    ensures Split(QuotedList(ids), ',') == seq(|ids|, i requires 0 <= i < |ids| => "\"" + ids[i] + "\"")
  {
    var q := seq(|ids|, i requires 0 <= i < |ids| => "\"" + ids[i] + "\"");
    forall k | 0 <= k < |q|
      ensures ',' !in q[k]
    {
      assert q[k] == "\"" + ids[k] + "\"";
    }
    SplitJoin(q, ',');
  }

  /** ` && <field> in [...]` for a non-empty list, otherwise the empty clause. */
  function Clause(field: string, ids: Option<seq<string>>): (c: string)
    ensures ids.None? || ids.value == [] <==> c == ""
  {
    if ids.Some? && |ids.value| > 0 then " && " + field + " in [" + QuotedList(ids.value) + "]" else ""
  }

  function BrandClause(filters: FilterParams): string {
    Clause("brand._ref", filters.brands)
  }

  function DepartmentClause(filters: FilterParams): string {
    Clause("department._ref", filters.departments)
  }

  /** The query `getFilteredProducts` sends. */
  function FilteredQuery(filters: FilterParams): string {
    ReplaceFirst(ReplaceFirst(FilteredProductsQuery, BrandPlaceholder, BrandClause(filters)),
                 DepartmentPlaceholder, DepartmentClause(filters))
  }

  /** `getFilteredProducts`: the fetched products, or `None` when it fails. */
  function GetFilteredProducts(filters: FilterParams, fetch: string -> Option<seq<Cms.Product>>): Option<seq<Cms.Product>> {
    fetch(FilteredQuery(filters))
  }

  /** No id holds a `$`, so the replacement texts are inserted verbatim. */
  predicate PlainIds(ids: Option<seq<string>>) {
    ids.Some? ==> forall i :: 0 <= i < |ids.value| ==> '$' !in ids.value[i]
  }

  lemma QuotedListPlain(ids: seq<string>)
    requires forall i :: 0 <= i < |ids| ==> '$' !in ids[i]
    ensures '$' !in QuotedList(ids)
    decreases |ids|
  {
    var q := seq(|ids|, i requires 0 <= i < |ids| => "\"" + ids[i] + "\"");
    if |ids| > 1 {
      QuotedListPlain(ids[1..]);
      assert q[1..] == seq(|ids| - 1, i requires 0 <= i < |ids| - 1 => "\"" + ids[1..][i] + "\"");
    }
  }

  lemma ClausePlain(field: string, ids: Option<seq<string>>)
    requires '$' !in field && PlainIds(ids)
    ensures '$' !in Clause(field, ids)
  {
    if ids.Some? && |ids.value| > 0 {
      QuotedListPlain(ids.value);
    }
  }

  /** Two replace-first steps on `head + p + middle + q + tail`, where both
      placeholders start with `$` and neither `head`, `middle` nor the first
      replacement holds one, put each replacement where its placeholder was. */
  lemma ReplaceBothPlaceholders(head: string, p: string, middle: string, q: string, tail: string, pRep: string, qRep: string)
    requires |p| > 0 && p[0] == '$' && |q| > 0 && q[0] == '$'
    requires '$' !in head && '$' !in middle && '$' !in pRep && '$' !in qRep
    ensures ReplaceFirst(ReplaceFirst(head + p + middle + q + tail, p, pRep), q, qRep)
      == head + pRep + middle + qRep + tail
  {
    var m := middle + q + tail;
    var a := head + pRep + middle;
    Regroup(head, p, pRep, middle, q, tail);
    ReplaceAtFirstDollar(head, p, m, pRep);
    ReplaceAtFirstDollar(a, q, tail, qRep);
  }

  lemma Regroup(head: string, p: string, pRep: string, middle: string, q: string, tail: string)
    ensures head + p + middle + q + tail == head + p + (middle + q + tail)
    ensures head + pRep + (middle + q + tail) == (head + pRep + middle) + q + tail
  {
  }

  /** One replace-first step: a placeholder starting with `$`, after a text
      free of `$`, is where the replacement lands. */
  lemma ReplaceAtFirstDollar(a: string, pat: string, b: string, rep: string)
    requires |pat| > 0 && pat[0] == '$' && '$' !in a && '$' !in rep
    ensures ReplaceFirst(a + pat + b, pat, rep) == a + rep + b
  {
    NoDollarNoMatch(a, pat, b);
    ReplaceFirstAt(a, pat, b, rep);
  }

  /** With ids free of `$`, the query is the template with the brand clause in
      place of the first placeholder and the department clause in place of the
      second: each clause lands exactly where its placeholder was. */
  lemma FilteredQueryShape(filters: FilterParams)
    requires PlainIds(filters.brands) && PlainIds(filters.departments)
    ensures FilteredQuery(filters)
      == TemplateHead + BrandClause(filters) + TemplateMiddle + DepartmentClause(filters) + TemplateTail
  {
    ClausePlain("brand._ref", filters.brands);
    ClausePlain("department._ref", filters.departments);
    ReplaceBothPlaceholders(TemplateHead, BrandPlaceholder, TemplateMiddle, DepartmentPlaceholder, TemplateTail,
                            BrandClause(filters), DepartmentClause(filters));
  }

  /** With no brand and no department, both placeholders disappear and the
      bare product selector remains. */
  lemma UnfilteredQuery(filters: FilterParams)
    requires filters.brands.None? || filters.brands.value == []
    requires filters.departments.None? || filters.departments.value == []
    ensures FilteredQuery(filters) == TemplateHead + TemplateMiddle + TemplateTail
  {
    FilteredQueryShape(filters);
    DropEmpty(TemplateHead, BrandClause(filters), TemplateMiddle, DepartmentClause(filters), TemplateTail);
  }

  lemma DropEmpty(a: string, x: string, b: string, y: string, c: string)
    requires x == [] && y == []
    ensures a + x + b + y + c == a + b + c
  {
  }
}
