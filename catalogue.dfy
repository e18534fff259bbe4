/** The filter engine of the catalogue page (`applyFilters` in src/pages/Home.jsx): a
    record stays in the view when its name, its types and its weight all pass the
    criteria of the filter form. */
module Catalogue {
  import opened Wrappers
  import opened Sequences
  import opened Text
  import opened JsNumber

  /** The fields of one Pokémon detail record that the filter reads. */
  datatype Pokemon = Pokemon(name: string, weight: int, types: seq<string>)

  /** The filter form; the empty string means that a criterion is not set. The minimum
      weight is kept as the text the form holds. */
  datatype Criteria = Criteria(name: string, typeName: string, minWeight: string)

  /** The form's initial state: no criterion set. */
  const NoCriteria := Criteria("", "", "")

  /** The name test lower-cases the fragment but not the record's name. */
  predicate NameMatches(fragment: string, p: Pokemon) {
    fragment == "" || Contains(p.name, Lower(fragment))
  }

  /** Some entry of the record's type list equals the chosen type exactly. */
  predicate TypeMatches(typeName: string, p: Pokemon) {
    typeName == "" || typeName in p.types
  }

  /** `weight >= parseInt(minWeight)`; a comparison with `NaN` is false. */
  predicate WeightMatches(minWeight: string, p: Pokemon) {
    minWeight == "" ||
    match ParseInt(minWeight)
    case None => false
    case Some(m) => p.weight >= m
  }

  predicate Matches(c: Criteria, p: Pokemon) {
    NameMatches(c.name, p) && TypeMatches(c.typeName, p) && WeightMatches(c.minWeight, p)
  }

  function Matcher(c: Criteria): Pokemon -> bool {
    p => Matches(c, p)
  }

  /** The records of weight `m` or more. */
  function AtLeast(m: int): Pokemon -> bool {
    (p: Pokemon) => p.weight >= m
  }

  /** The filtered view `applyFilters` computes from the working set. */
  function Filter(ws: seq<Pokemon>, c: Criteria): (r: seq<Pokemon>)
    ensures |r| <= |ws|
    ensures forall i :: 0 <= i < |r| ==> Matches(c, r[i])
  {
    Retain(ws, Matcher(c))
  }

  /** The view keeps the working set's order and holds every matching record as often
      as the working set does, and no other record. */
  lemma {:induction false} FilterSpec(ws: seq<Pokemon>, c: Criteria)
    ensures IsSubsequence(Filter(ws, c), ws)
    ensures forall p :: multiset(Filter(ws, c))[p] == if Matches(c, p) then multiset(ws)[p] else 0
  {
    RetainIsSubsequence(ws, Matcher(c));
    forall p ensures multiset(Filter(ws, c))[p] == if Matches(c, p) then multiset(ws)[p] else 0 {
      RetainCount(ws, Matcher(c), p);
    }
  }

  /** A record is in the view exactly when it is in the working set and matches. */
  lemma {:induction false} FilterMember(ws: seq<Pokemon>, c: Criteria, p: Pokemon)
    ensures p in Filter(ws, c) <==> p in ws && Matches(c, p)
  {
    RetainMember(ws, Matcher(c), p);
  }

  /** The properties of `FilterSpec` determine the view: any order-preserving selection
      with those counts is the view. */
  lemma {:induction false} FilterCharacterised(ws: seq<Pokemon>, c: Criteria, r: seq<Pokemon>)
    requires IsSubsequence(r, ws)
    requires forall p :: multiset(r)[p] == if Matches(c, p) then multiset(ws)[p] else 0
    ensures r == Filter(ws, c)
  {
    RetainUnique(ws, Matcher(c), r);
  }

  /** With no criterion set the view is the whole working set. */
  lemma {:induction false} FilterNoCriteria(ws: seq<Pokemon>)
    ensures Filter(ws, NoCriteria) == ws
  {
    forall i | 0 <= i < |ws| ensures Matcher(NoCriteria)(ws[i]) {
      assert OccursAt(ws[i].name, Lower(""), 0);
    }
    RetainAll(ws, Matcher(NoCriteria));
  }

  /** A minimum weight that `parseInt` cannot read rejects every record. */
  lemma {:induction false} FilterUnreadableMinWeight(ws: seq<Pokemon>, c: Criteria)
    requires c.minWeight != "" && ParseInt(c.minWeight) == None
    ensures Filter(ws, c) == []
  {
    RetainNone(ws, Matcher(c));
  }

  /** A minimum weight that reads as `m` keeps, of what the other two criteria keep,
      exactly the records of weight `m` or more. */
  lemma {:induction false} FilterMinWeight(ws: seq<Pokemon>, c: Criteria, m: int)
    requires ParseInt(c.minWeight) == Some(m)
    ensures Filter(ws, c) == Retain(Filter(ws, c.(minWeight := "")), AtLeast(m))
  {
    assert c.minWeight != "" by {
      if c.minWeight == [] {
        ParseIntLetter(c.minWeight);
      }
    }
    var rest := c.(minWeight := "");
    forall p ensures Matcher(c)(p) == (Matcher(rest)(p) && AtLeast(m)(p)) {
      assert WeightMatches(c.minWeight, p) == (p.weight >= m);
    }
    RetainCompose(ws, Matcher(rest), AtLeast(m), Matcher(c));
  }

  /** The three criteria are independent: applying them one at a time, in any stage,
      gives the same view as applying them together. */
  lemma {:induction false} FilterConjunction(ws: seq<Pokemon>, c: Criteria)
    ensures Filter(Filter(Filter(ws, Criteria(c.name, "", "")), Criteria("", c.typeName, "")),
                   Criteria("", "", c.minWeight)) == Filter(ws, c)
  {
    var byName, byType, byWeight := Criteria(c.name, "", ""), Criteria("", c.typeName, ""), Criteria("", "", c.minWeight);
    var nameAndType := Criteria(c.name, c.typeName, "");
    forall p ensures NameMatches("", p) {
      assert OccursAt(p.name, Lower(""), 0);
    }
    RetainCompose(ws, Matcher(byName), Matcher(byType), Matcher(nameAndType));
    RetainCompose(ws, Matcher(nameAndType), Matcher(byWeight), Matcher(c));
  }

  /** The fragment's case does not matter: it is lower-cased before the test. */
  lemma {:induction false} NameFragmentCase(fragment: string, p: Pokemon)
    ensures NameMatches(Lower(fragment), p) == NameMatches(fragment, p)
  {
    LowerIdempotent(fragment);
  }

  /** The name test is stricter than a case-insensitive one: a record it keeps would also
      pass a test that lower-cases both sides, and the two tests agree on records whose
      names are already lower case. */
  lemma {:induction false} NameMatchesFolded(fragment: string, p: Pokemon)
    ensures NameMatches(fragment, p) ==> fragment == "" || Contains(Lower(p.name), Lower(fragment))
    ensures Lower(p.name) == p.name ==>
      (NameMatches(fragment, p) <==> fragment == "" || Contains(Lower(p.name), Lower(fragment)))
  {
    if fragment != "" && NameMatches(fragment, p) {
      ContainsLower(p.name, Lower(fragment));
      LowerIdempotent(fragment);
    }
  }

  /** A record whose name has a capital letter is missed although the fragment matches
      it without regard to case. */
  lemma {:induction false} NameIsCaseSensitive()
    ensures !NameMatches("pika", Pokemon("Pikachu", 60, ["electric"]))
    ensures Contains(Lower("Pikachu"), Lower("pika"))
  {
    assert Lower("pika") == "pika";
    assert Lower("Pikachu") == "pikachu";
    assert OccursAt("pikachu", "pika", 0);
    AbsentFirstChar("Pikachu", "pika");
  }

  /** The minimum weight "abc" reads as `NaN`, so the view is empty whatever the
      working set. */
  lemma {:induction false} UnreadableMinWeightScenario(ws: seq<Pokemon>)
    ensures Filter(ws, Criteria("", "", "abc")) == []
  {
    ParseIntLetter("abc");
    FilterUnreadableMinWeight(ws, Criteria("", "", "abc"));
  }

  /** Searching "Pika" among three records keeps only Pikachu. */
  lemma {:induction false} PikachuScenario()
    ensures Filter([Pokemon("bulbasaur", 69, ["grass", "poison"]),
                    Pokemon("pikachu", 60, ["electric"]),
                    Pokemon("raichu", 300, ["electric"])], Criteria("Pika", "", ""))
         == [Pokemon("pikachu", 60, ["electric"])]
  {
    var c := Criteria("Pika", "", "");
    var bulbasaur := Pokemon("bulbasaur", 69, ["grass", "poison"]);
    var pikachu := Pokemon("pikachu", 60, ["electric"]);
    var raichu := Pokemon("raichu", 300, ["electric"]);
    assert Lower("Pika") == "pika";
    assert !Matches(c, bulbasaur) by {
      AbsentFirstChar("bulbasaur", "pika");
    }
    assert Matches(c, pikachu) by {
      assert OccursAt("pikachu", "pika", 0);
    }
    assert !Matches(c, raichu) by {
      AbsentFirstChar("raichu", "pika");
    }
    var ws := [bulbasaur, pikachu, raichu];
    assert ws[1..] == [pikachu, raichu];
    assert ws[1..][1..] == [raichu];
    assert Retain([raichu], Matcher(c)) == [] by {
      assert [raichu][1..] == [];
    }
  }

}
