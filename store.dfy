/**
 * The state of the search page and its transitions: one field per piece of
 * component state, one method per event handler. Each handler runs to
 * completion before the next starts.
 */
module SearchStore {
  import opened Wrappers
  import opened Listings
  import opened FilterEngine
  import Favourites
  import Gallery
  import Sequences

  class PropertySearch {
    /** The catalogue the page was loaded with; it never changes. */
    const catalogue: seq<Listing>
    /** The search form's eight inputs. */
    var criteria: Criteria
    /** The listings on show: those of the last search. */
    var filtered: seq<Listing>
    var favourites: seq<Listing>
    /** The listing whose detail view is open, if any. */
    var selected: Option<Listing>
    /** The listing being dragged, if any. */
    var dragged: Option<Listing>
    var imageIndex: nat
    var activeTab: Gallery.Tab

    /**
     * What every handler keeps: the listings on show come from the catalogue
     * in catalogue order, no listing is saved twice, and an open detail view
     * shows one of its listing's images.
     */
    ghost predicate Valid()
      reads this
    {
      Sequences.IsSubseq(filtered, catalogue) &&
      Favourites.UniqueIds(favourites) &&
      (selected.Some? ==> imageIndex < |selected.value.images|)
    }

    /** The page as it first renders: empty form, whole catalogue, nothing saved, nothing open. */
    constructor (catalogue: seq<Listing>)
      ensures Valid()
      ensures this.catalogue == catalogue
      ensures criteria == EmptyCriteria && filtered == catalogue
      ensures favourites == [] && selected == None && dragged == None
      ensures imageIndex == 0 && activeTab == Gallery.Description
    {
      this.catalogue := catalogue;
      criteria := EmptyCriteria;
      filtered := catalogue;
      favourites := [];
      selected := None;
      dragged := None;
      imageIndex := 0;
      activeTab := Gallery.Description;
      new;
      Sequences.SubseqRefl(catalogue);
    }

    /** `handleInputChange`: one input takes the typed text; nothing is searched yet. */
    method InputChange(f: Field, v: string)
      requires Valid()
      modifies this`criteria
      ensures Valid()
      ensures criteria == WithField(old(criteria), f, v)
    {
      criteria := WithField(criteria, f, v);
    }

    /** `handleSearch`: the listings on show become the catalogue filtered by the form. */
    method Search()
      requires Valid()
      modifies this`filtered
      ensures Valid()
      ensures filtered == Filter(catalogue, criteria)
    {
      filtered := Filter(catalogue, criteria);
      FilterIsSubsequence(catalogue, criteria);
    }

    /**
     * `resetSearch`: every input empty and the whole catalogue on show, which
     * is what a search with the empty form shows.
     */
    method ResetSearch()
      requires Valid()
      modifies this`criteria, this`filtered
      ensures Valid()
      ensures criteria == EmptyCriteria && filtered == catalogue
      ensures filtered == Filter(catalogue, criteria)
    {
      criteria := EmptyCriteria;
      filtered := catalogue;
      Sequences.SubseqRefl(catalogue);
      EmptyCriteriaKeepAll(catalogue);
    }

    /** `addToFavourites`: saved at the end unless a favourite has the same identifier. */
    method AddToFavourites(p: Listing)
      requires Valid()
      modifies this`favourites
      ensures Valid()
      ensures favourites == Favourites.Add(old(favourites), p)
    {
      favourites := Favourites.Add(favourites, p);
      Favourites.AddKeepsUnique(old(favourites), p);
    }

    /** `removeFromFavourites`: every favourite with the identifier goes. */
    method RemoveFromFavourites(id: string)
      requires Valid()
      modifies this`favourites
      ensures Valid()
      ensures favourites == Favourites.Remove(old(favourites), id)
    {
      favourites := Favourites.Remove(favourites, id);
      Favourites.RemoveKeepsUnique(old(favourites), id);
    }

    /** `clearFavourites`. */
    method ClearFavourites()
      requires Valid()
      modifies this`favourites
      ensures Valid()
      ensures favourites == []
    {
      favourites := [];
    }

    /** `handleDragStart`: the listing becomes the one being dragged. */
    method DragStart(p: Listing)
      requires Valid()
      modifies this`dragged
      ensures Valid()
      ensures dragged == Some(p)
    {
      dragged := Some(p);
    }

    /** `handleDropOnFavourites`: a dragged listing is added and the drag ends; without one nothing happens. */
    method DropOnFavourites()
      requires Valid()
      modifies this`favourites, this`dragged
      ensures Valid()
      ensures old(dragged).Some? ==>
        favourites == Favourites.Add(old(favourites), old(dragged).value) && dragged == None
      ensures old(dragged).None? ==> favourites == old(favourites) && dragged == None
    {
      if dragged.Some? {
        AddToFavourites(dragged.value);
        dragged := None;
      }
    }

    /**
     * `handleDropRemove`: a dragged favourite is removed and the drag ends;
     * a dragged listing that is not a favourite, or no drag, changes nothing.
     */
    method DropRemove()
      requires Valid()
      modifies this`favourites, this`dragged
      ensures Valid()
      ensures old(dragged).Some? && Favourites.HasId(old(favourites), old(dragged).value.id) ==>
        favourites == Favourites.Remove(old(favourites), old(dragged).value.id) && dragged == None
      ensures !(old(dragged).Some? && Favourites.HasId(old(favourites), old(dragged).value.id)) ==>
        favourites == old(favourites) && dragged == old(dragged)
    {
      if dragged.Some? && Favourites.Find(favourites, dragged.value.id).Some? {
        RemoveFromFavourites(dragged.value.id);
        dragged := None;
      }
    }

    /**
     * A drop on the favourites list: the list (handler `handleDropRemove`)
     * sits inside the favourites panel (handler `handleDropOnFavourites`), so
     * the drop reaches both, the list's first. A dragged favourite is removed,
     * any other dragged listing is added, and the drag ends.
     */
    method DropOnFavouritesList()
      requires Valid()
      modifies this`favourites, this`dragged
      ensures Valid()
      ensures old(dragged).Some? && Favourites.HasId(old(favourites), old(dragged).value.id) ==>
        favourites == Favourites.Remove(old(favourites), old(dragged).value.id)
      ensures old(dragged).Some? && !Favourites.HasId(old(favourites), old(dragged).value.id) ==>
        favourites == old(favourites) + [old(dragged).value]
      ensures old(dragged).None? ==> favourites == old(favourites)
      ensures dragged == None
    {
      if dragged.Some? {
        Favourites.AddAppendsOnlyNew(favourites, dragged.value);
      }
      DropRemove();
      DropOnFavourites();
    }

    /** `openPropertyDetail`: the listing is shown from its first image, on the description tab. */
    method OpenPropertyDetail(p: Listing)
      requires Valid()
      requires |p.images| > 0
      modifies this`selected, this`imageIndex, this`activeTab
      ensures Valid()
      ensures selected == Some(p) && imageIndex == 0 && activeTab == Gallery.Description
    {
      selected := Some(p);
      imageIndex := 0;
      activeTab := Gallery.Description;
    }

    /** `closePropertyDetail`: back to the search view. */
    method ClosePropertyDetail()
      requires Valid()
      modifies this`selected
      ensures Valid()
      ensures selected == None
    {
      selected := None;
    }

    /** `nextImage`: one image forward, wrapping; nothing when no listing is open. */
    method NextImage()
      requires Valid()
      modifies this`imageIndex
      ensures Valid()
      ensures selected.Some? ==> imageIndex == Gallery.NextImage(old(imageIndex), |selected.value.images|)
      ensures selected.None? ==> imageIndex == old(imageIndex)
    {
      if selected.Some? {
        imageIndex := Gallery.NextImage(imageIndex, |selected.value.images|);
      }
    }

    /** `prevImage`: one image back, wrapping; nothing when no listing is open. */
    method PrevImage()
      requires Valid()
      modifies this`imageIndex
      ensures Valid()
      ensures selected.Some? ==> imageIndex == Gallery.PrevImage(old(imageIndex), |selected.value.images|)
      ensures selected.None? ==> imageIndex == old(imageIndex)
    {
      if selected.Some? {
        imageIndex := Gallery.PrevImage(imageIndex, |selected.value.images|);
      }
    }

    /** A click on thumbnail `idx` of the open listing shows that image. */
    method SelectImage(idx: nat)
      requires Valid()
      requires selected.Some? && idx < |selected.value.images|
      modifies this`imageIndex
      ensures Valid()
      ensures imageIndex == idx
    {
      imageIndex := idx;
    }

    /** A click on one of the three tab buttons shows that tab. */
    method SelectTab(t: Gallery.Tab)
      requires Valid()
      modifies this`activeTab
      ensures Valid()
      ensures activeTab == t
    {
      activeTab := t;
    }
  }
}
