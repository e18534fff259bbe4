/** The type registry of the catalogue page (`fetchTypes` in src/pages/Home.jsx): the
    type list fetched from the API, without the two labels that are not official types,
    reduced to the type names. */
module TypeRegistry {
  import opened Sequences

  /** One entry of the API's type list. */
  datatype NamedResource = NamedResource(name: string, url: string)

  /** Every label except "stellar" and "unknown". */
  predicate IsOfficial(name: string) {
    name != "stellar" && name != "unknown"
  }

  predicate IsOfficialEntry(e: NamedResource) {
    IsOfficial(e.name)
  }

  /** The names of the entries, in order. */
  function Names(es: seq<NamedResource>): (r: seq<string>)
    ensures |r| == |es|
    ensures forall i :: 0 <= i < |es| ==> r[i] == es[i].name
  {
    if es == [] then [] else [es[0].name] + Names(es[1..])
  }

  /** The labels the type menu offers: the official entries, then their names. */
  function ValidTypes(results: seq<NamedResource>): seq<string> {
    Names(Retain(results, IsOfficialEntry))
  }

  /** Filtering the entries and then taking names is filtering the names. */
  lemma {:induction false} NamesRetain(es: seq<NamedResource>)
    ensures Names(Retain(es, IsOfficialEntry)) == Retain(Names(es), IsOfficial)
  {
    if es != [] {
      NamesRetain(es[1..]);
      assert Names(es)[1..] == Names(es[1..]);
    }
  }

  /** The menu holds no sentinel label, keeps the fetched order, and holds every other
      label as often as the fetched list does. */
  lemma {:induction false} ValidTypesSpec(results: seq<NamedResource>)
    ensures "stellar" !in ValidTypes(results) && "unknown" !in ValidTypes(results)
    ensures IsSubsequence(ValidTypes(results), Names(results))
    ensures forall n :: IsOfficial(n) ==> multiset(ValidTypes(results))[n] == multiset(Names(results))[n]
  {
    NamesRetain(results);
    RetainIsSubsequence(Names(results), IsOfficial);
    RetainMember(Names(results), IsOfficial, "stellar");
    RetainMember(Names(results), IsOfficial, "unknown");
    forall n | IsOfficial(n) ensures multiset(ValidTypes(results))[n] == multiset(Names(results))[n] {
      RetainCount(Names(results), IsOfficial, n);
    }
  }

  /** Those three properties determine the menu. */
  lemma {:induction false} ValidTypesCharacterised(results: seq<NamedResource>, r: seq<string>)
    requires IsSubsequence(r, Names(results))
    requires forall n :: multiset(r)[n] == if IsOfficial(n) then multiset(Names(results))[n] else 0
    ensures r == ValidTypes(results)
  {
    NamesRetain(results);
    RetainUnique(Names(results), IsOfficial, r);
  }

  /** A list that already holds only official labels is kept whole. */
  lemma {:induction false} ValidTypesOfficial(results: seq<NamedResource>)
    requires forall i :: 0 <= i < |results| ==> IsOfficial(results[i].name)
    ensures ValidTypes(results) == Names(results)
  {
    RetainAll(results, IsOfficialEntry);
  }

}
