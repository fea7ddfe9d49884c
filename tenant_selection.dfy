/** The tenant picker in the browser: the search filter over the directory
    listing and the tenant the Enter key selects. */
module TenantSelection {
  import opened Common
  import opened Text
  import opened Seqs

  /** A directory entry as the picker reads it: name, slug and the brand's
      optional tagline. */
  datatype Listed = Listed(name: string, slug: string, tagline: Option<string>)

  /** The search box: a tenant stays when the lower-cased query (not
      trimmed) occurs in its lower-cased name, its lower-cased slug, or its
      lower-cased tagline when it has a non-empty one. */
  function FilterTenants(tenants: seq<Listed>, query: string): (r: seq<Listed>)
    ensures forall t :: t in r <==> t in tenants && (Occurs(Lower(query), Lower(t.name))
                                                    || Occurs(Lower(query), Lower(t.slug))
                                                    || (Truthy(t.tagline) && Occurs(Lower(query), Lower(t.tagline.value))))
    ensures |r| <= |tenants|
  {
    Filter(tenants, (t: Listed) => Includes(Lower(t.name), Lower(query))
                                   || Includes(Lower(t.slug), Lower(query))
                                   || (Truthy(t.tagline) && Includes(Lower(t.tagline.value), Lower(query))))
  }

  /** An empty search box lists every tenant, in order. */
  lemma EmptySearchListsAll(tenants: seq<Listed>)
    ensures FilterTenants(tenants, "") == tenants
  {
    forall t: Listed { IncludesEmpty(Lower(t.name)); }
    FilterAll(tenants, (t: Listed) => Includes(Lower(t.name), Lower(""))
                                      || Includes(Lower(t.slug), Lower(""))
                                      || (Truthy(t.tagline) && Includes(Lower(t.tagline.value), Lower(""))));
  }

  /** A needle with a character the haystack lacks does not occur in it. */
  lemma MissingCharNoOccurrence(needle: string, hay: string, c: char)
    requires c in needle && c !in hay
    ensures !Occurs(needle, hay)
  {
    var k :| 0 <= k < |needle| && needle[k] == c;
    forall i ensures !OccursAt(needle, hay, i) {
      if 0 <= i && i + |needle| <= |hay| {
        assert hay[i..i + |needle|][k] == hay[i + k];
        assert hay[i + k] in hay;
      }
    }
  }

  /** Lower-casing neither adds nor removes spaces. */
  lemma LowerKeepsSpace(s: string)
    ensures ' ' in Lower(s) <==> ' ' in s
  {
    if ' ' in s {
      var k :| 0 <= k < |s| && s[k] == ' ';
      assert Lower(s)[k] == ' ';
    }
  }

  /** The query is not trimmed: one with a space (a trailing one included)
      finds nothing when no name, slug or tagline has a space. */
  lemma SpacedQueryFindsNothing(tenants: seq<Listed>, query: string)
    requires ' ' in query
    requires forall t :: t in tenants ==>
               ' ' !in t.name && ' ' !in t.slug && (t.tagline.Some? ==> ' ' !in t.tagline.value)
    ensures FilterTenants(tenants, query) == []
  {
    var q := Lower(query);
    LowerKeepsSpace(query);
    forall k | 0 <= k < |tenants|
      ensures !(Includes(Lower(tenants[k].name), q) || Includes(Lower(tenants[k].slug), q)
                || (Truthy(tenants[k].tagline) && Includes(Lower(tenants[k].tagline.value), q)))
    {
      var t := tenants[k];
      assert t in tenants;
      LowerKeepsSpace(t.name);
      LowerKeepsSpace(t.slug);
      MissingCharNoOccurrence(q, Lower(t.name), ' ');
      MissingCharNoOccurrence(q, Lower(t.slug), ' ');
      if t.tagline.Some? {
        LowerKeepsSpace(t.tagline.value);
        MissingCharNoOccurrence(q, Lower(t.tagline.value), ' ');
      }
    }
    FilterNone(tenants, (t: Listed) => Includes(Lower(t.name), Lower(query))
                                       || Includes(Lower(t.slug), Lower(query))
                                       || (Truthy(t.tagline) && Includes(Lower(t.tagline.value), Lower(query))));
  }

  /** The Enter key: a blank query selects nothing; a tenant whose
      lower-cased slug equals the trimmed, lower-cased query is selected
      (the first in the list, as `find` returns); otherwise the only tenant the filter keeps, if it
      keeps exactly one. */
  function OnEnter(tenants: seq<Listed>, query: string): (r: Option<string>)
    ensures AllSpace(query) ==> r == None
    ensures r.Some? ==> exists t :: t in tenants && t.slug == r.value
    ensures !AllSpace(query) && (exists t :: t in tenants && Lower(t.slug) == Lower(Trim(query))) ==>
              r.Some? && Lower(r.value) == Lower(Trim(query))
    ensures !AllSpace(query) ==>
              forall i :: 0 <= i < |tenants| && Lower(tenants[i].slug) == Lower(Trim(query))
                          && (forall j :: 0 <= j < i ==> Lower(tenants[j].slug) != Lower(Trim(query))) ==>
                r == Some(tenants[i].slug)
    ensures !AllSpace(query) && (forall t :: t in tenants ==> Lower(t.slug) != Lower(Trim(query))) ==>
              (r.Some? <==> |FilterTenants(tenants, query)| == 1)
              && (r.Some? ==> r.value == FilterTenants(tenants, query)[0].slug)
  {
    TrimEmptyIff(query);
    if Trim(query) == "" then None
    else
      match Find(tenants, (t: Listed) => Lower(t.slug) == Lower(Trim(query)))
      case Some(t) => Some(t.slug)
      case None =>
        var shown := FilterTenants(tenants, query);
        if |shown| == 1 then
          assert shown[0] in shown;
          Some(shown[0].slug)
        else None
  }

  /** White space around a query that names a slug exactly does not change
      the choice. */
  lemma PaddingIgnoredForExactSlug(tenants: seq<Listed>, query: string, padded: string)
    requires Trim(padded) == Trim(query) && !AllSpace(query)
    requires exists t :: t in tenants && Lower(t.slug) == Lower(Trim(query))
    ensures OnEnter(tenants, padded) == OnEnter(tenants, query)
  {
    TrimEmptyIff(query);
    TrimEmptyIff(padded);
  }

  /** Without an exact slug, a query with a space selects nothing when no
      name, slug or tagline has a space: "acm " does not fall back to the
      single tenant "acm" would find. */
  lemma SpacedQueryNoFallback(tenants: seq<Listed>, query: string)
    requires ' ' in query
    requires forall t :: t in tenants ==> Lower(t.slug) != Lower(Trim(query))
    requires forall t :: t in tenants ==>
               ' ' !in t.name && ' ' !in t.slug && (t.tagline.Some? ==> ' ' !in t.tagline.value)
    ensures OnEnter(tenants, query) == None
  {
    SpacedQueryFindsNothing(tenants, query);
  }
}
