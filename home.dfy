/** The state of the catalogue page component (`Home` in src/pages/Home.jsx) and the
    handlers that update it. The working set, the filtered view, the form's criteria,
    the current page and the type menu are fields; each state setter the component calls
    is a method. */
module Home {
  import opened Wrappers
  import opened Sequences
  import opened Catalogue
  import opened TypeRegistry
  import opened Paginator

  class HomePage {
    /** `pokemonList`: the working set. */
    var pokemonList: seq<Pokemon>
    /** `filteredPokemons`: the view the pages are cut from. */
    var filteredPokemons: seq<Pokemon>
    /** `filters`: what the form holds, applied only by `ApplyFilters`. */
    var filters: Criteria
    /** `currentPage`. */
    var currentPage: int
    /** `types`: the labels of the type menu. */
    var types: seq<string>
    /** The criteria the view was last computed with. */
    ghost var applied: Criteria

    /** The view is always the working set filtered by some criteria. */
    ghost predicate Valid()
      reads this
    {
      filteredPokemons == Filter(pokemonList, applied)
    }

    /** What the invariant gives a reader of the state: the view is an order-preserving
        selection of the working set, every record in it matches the criteria last
        applied, and every matching record of the working set is in it. */
    lemma ViewSelectsWorkingSet()
      requires Valid()
      ensures IsSubsequence(filteredPokemons, pokemonList)
      ensures forall p :: p in filteredPokemons <==> p in pokemonList && Matches(applied, p)
    {
      FilterSpec(pokemonList, applied);
      forall p ensures p in filteredPokemons <==> p in pokemonList && Matches(applied, p) {
        FilterMember(pokemonList, applied, p);
      }
    }

    /** The initial values of the component's state. */
    constructor ()
      ensures Valid()
      ensures pokemonList == [] && filteredPokemons == [] && filters == NoCriteria
      ensures currentPage == 1 && types == []
    {
      pokemonList, filteredPokemons := [], [];
      filters, currentPage, types := NoCriteria, 1, [];
      applied := NoCriteria;
    }

    /** The records of the current page (`currentPokemons`). */
    function CurrentPokemons(): (r: seq<Pokemon>)
      reads this
      ensures currentPage >= 1 ==> |r| <= PageSize
      ensures currentPage >= 1 ==>
        r == filteredPokemons[Min((currentPage - 1) * PageSize, |filteredPokemons|)..
                              Min(currentPage * PageSize, |filteredPokemons|)]
    {
      Page(filteredPokemons, currentPage)
    }

    /** The number of page buttons. */
    function PageButtons(): (n: nat)
      reads this
      ensures (n - 1) * PageSize < |filteredPokemons| <= n * PageSize
    {
      PageCount(|filteredPokemons|)
    }

    /** `fetchPokemons` settling: when every request succeeded (`Some`), the working set
        and the view both become the fetched records, in the order of the summary list;
        when any request failed (`None`), nothing changes. */
    method PokemonsFetched(outcome: Option<seq<Pokemon>>)
      requires Valid()
      modifies this
      ensures Valid()
      ensures outcome.Some? ==> pokemonList == outcome.value && filteredPokemons == outcome.value
      ensures outcome.None? ==> pokemonList == old(pokemonList) && filteredPokemons == old(filteredPokemons)
      ensures filters == old(filters) && currentPage == old(currentPage) && types == old(types)
    {
      if outcome.Some? {
        pokemonList := outcome.value;
        filteredPokemons := outcome.value;
        FilterNoCriteria(outcome.value);
        applied := NoCriteria;
      }
    }

    /** `fetchTypes` settling: on success the type menu becomes the official labels of
        the fetched list; on failure nothing changes. */
    method TypesFetched(outcome: Option<seq<NamedResource>>)
      requires Valid()
      modifies this
      ensures Valid()
      ensures outcome.Some? ==> types == ValidTypes(outcome.value)
      ensures outcome.None? ==> types == old(types)
      ensures pokemonList == old(pokemonList) && filteredPokemons == old(filteredPokemons)
      ensures filters == old(filters) && currentPage == old(currentPage)
    {
      if outcome.Some? {
        types := ValidTypes(outcome.value);
      }
    }

    /** The name input's handler: only the name criterion changes; the view waits for
        `ApplyFilters`. */
    method SetName(value: string)
      requires Valid()
      modifies this
      ensures Valid()
      ensures filters == old(filters).(name := value)
      ensures pokemonList == old(pokemonList) && filteredPokemons == old(filteredPokemons)
      ensures currentPage == old(currentPage) && types == old(types)
    {
      filters := filters.(name := value);
    }

    /** The type menu's handler. */
    method SetType(value: string)
      requires Valid()
      modifies this
      ensures Valid()
      ensures filters == old(filters).(typeName := value)
      ensures pokemonList == old(pokemonList) && filteredPokemons == old(filteredPokemons)
      ensures currentPage == old(currentPage) && types == old(types)
    {
      filters := filters.(typeName := value);
    }

    /** The weight menu's handler. */
    method SetMinWeight(value: string)
      requires Valid()
      modifies this
      ensures Valid()
      ensures filters == old(filters).(minWeight := value)
      ensures pokemonList == old(pokemonList) && filteredPokemons == old(filteredPokemons)
      ensures currentPage == old(currentPage) && types == old(types)
    {
      filters := filters.(minWeight := value);
    }

    /** `applyFilters`: the view becomes the working set filtered by the form's criteria
        and the first page is shown; the working set does not change. */
    method ApplyFilters()
      requires Valid()
      modifies this
      ensures Valid()
      ensures filteredPokemons == Filter(pokemonList, filters)
      ensures currentPage == 1
      ensures pokemonList == old(pokemonList) && filters == old(filters) && types == old(types)
      ensures filteredPokemons != [] ==> 1 <= currentPage <= PageButtons()
      ensures CurrentPokemons() == filteredPokemons[..Min(PageSize, |filteredPokemons|)]
    {
      filteredPokemons := Filter(pokemonList, filters);
      currentPage := 1;
      applied := filters;
    }

    /** `paginate`: the current page becomes `pageNumber`, unchecked. */
    method Paginate(pageNumber: int)
      requires Valid()
      modifies this
      ensures Valid()
      ensures currentPage == pageNumber
      ensures pokemonList == old(pokemonList) && filteredPokemons == old(filteredPokemons)
      ensures filters == old(filters) && types == old(types)
    {
      currentPage := pageNumber;
    }
  }

}
