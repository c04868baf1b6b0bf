/**
 * The favourites list: listings in the order they were saved, at most one
 * per identifier.
 */
module Favourites {
  import opened Wrappers
  import opened Listings
  import Sequences

  /** Some favourite carries the identifier `id`. */
  predicate HasId(favs: seq<Listing>, id: string) {
    exists i :: 0 <= i < |favs| && favs[i].id == id
  }

  /** No identifier occurs twice. */
  predicate UniqueIds(favs: seq<Listing>) {
    forall i, j :: 0 <= i < j < |favs| ==> favs[i].id != favs[j].id
  }

  /** `favourites.find(fav => fav.id === id)`: the first favourite with that identifier. */
  function Find(favs: seq<Listing>, id: string): (r: Option<Listing>)
    ensures r.Some? <==> HasId(favs, id)
    ensures r.Some? ==> r.value in favs && r.value.id == id
  {
    if favs == [] then None
    else if favs[0].id == id then Some(favs[0])
    else
      var r := Find(favs[1..], id);
      assert HasId(favs[1..], id) ==> HasId(favs, id) by {
        if HasId(favs[1..], id) {
          var i :| 0 <= i < |favs| - 1 && favs[1..][i].id == id;
          assert favs[i + 1].id == id;
        }
      }
      assert HasId(favs, id) ==> HasId(favs[1..], id) by {
        if HasId(favs, id) {
          var i :| 0 <= i < |favs| && favs[i].id == id;
          assert i > 0 && favs[1..][i - 1].id == id;
        }
      }
      r
  }

  /** `addToFavourites`: the listing goes at the end unless its identifier is already saved. */
  function Add(favs: seq<Listing>, p: Listing): seq<Listing> {
    if Find(favs, p.id).None? then favs + [p] else favs
  }

  /** `removeFromFavourites`: every favourite with the identifier goes, the rest stay in order. */
  function Remove(favs: seq<Listing>, id: string): seq<Listing> {
    Sequences.Keep(favs, Other(id))
  }

  /** The test `fav.id !== id` that removal keeps a favourite by. */
  function Other(id: string): Listing -> bool {
    (fav: Listing) => fav.id != id
  }

  /**
   * Adding appends the listing exactly when its identifier is new and leaves
   * the list as it was otherwise; afterwards the identifier is saved.
   */
  lemma AddAppendsOnlyNew(favs: seq<Listing>, p: Listing)
    ensures HasId(favs, p.id) ==> Add(favs, p) == favs
    ensures !HasId(favs, p.id) ==> Add(favs, p) == favs + [p]
    ensures HasId(Add(favs, p), p.id)
  {
    var r := Add(favs, p);
    if !HasId(favs, p.id) {
      assert r[|favs|] == p;
    }
  }

  /** Adding keeps the identifiers unique. */
  lemma AddKeepsUnique(favs: seq<Listing>, p: Listing)
    requires UniqueIds(favs)
    ensures UniqueIds(Add(favs, p))
  {
    AddAppendsOnlyNew(favs, p);
  }

  /** Adding the same listing twice is adding it once. */
  lemma AddIdempotent(favs: seq<Listing>, p: Listing)
    ensures Add(Add(favs, p), p) == Add(favs, p)
  {
    AddAppendsOnlyNew(favs, p);
    AddAppendsOnlyNew(Add(favs, p), p);
  }

  /**
   * After removal no favourite has the identifier, every other favourite is
   * still there, and the order is kept.
   */
  lemma RemoveExactly(favs: seq<Listing>, id: string)
    ensures !HasId(Remove(favs, id), id)
    ensures forall x :: x in Remove(favs, id) <==> x in favs && x.id != id
    ensures Sequences.IsSubseq(Remove(favs, id), favs)
  {
    var keep := Other(id);
    forall x
      ensures x in Remove(favs, id) <==> x in favs && x.id != id
    {
      Sequences.KeepMembership(favs, keep, x);
    }
    Sequences.KeepIsSubseq(favs, keep);
    var r := Remove(favs, id);
    forall i | 0 <= i < |r|
      ensures r[i].id != id
    {
      assert r[i] in r;
    }
  }

  /** Removing an identifier that is not saved changes nothing, and only then. */
  lemma RemoveAbsentIsNoop(favs: seq<Listing>, id: string)
    ensures Remove(favs, id) == favs <==> !HasId(favs, id)
  {
    var keep := Other(id);
    Sequences.KeepAll(favs, keep);
    RemoveExactly(favs, id);
    if !HasId(favs, id) {
      forall x | x in favs
        ensures keep(x)
      {
        var i :| 0 <= i < |favs| && favs[i] == x;
      }
    }
  }

  /** Removing keeps the identifiers unique. */
  lemma RemoveKeepsUnique(favs: seq<Listing>, id: string)
    requires UniqueIds(favs)
    ensures UniqueIds(Remove(favs, id))
  {
    if favs != [] {
      RemoveKeepsUnique(favs[1..], id);
      var rest := Remove(favs[1..], id);
      if favs[0].id != id {
        assert Remove(favs, id) == [favs[0]] + rest;
        forall j | 0 <= j < |rest|
          ensures rest[j].id != favs[0].id
        {
          RemoveExactly(favs[1..], id);
          assert rest[j] in favs[1..];
          var k :| 0 <= k < |favs[1..]| && favs[1..][k] == rest[j];
          assert favs[k + 1] == rest[j];
        }
      } else {
        assert Remove(favs, id) == rest;
      }
    }
  }

  /** Removing the identifier of a listing that was just added as new undoes the add. */
  lemma RemoveUndoesAdd(favs: seq<Listing>, p: Listing)
    requires !HasId(favs, p.id)
    ensures Remove(Add(favs, p), p.id) == favs
  {
    AddAppendsOnlyNew(favs, p);
    var keep := Other(p.id);
    Sequences.KeepConcat(favs, [p], keep);
    RemoveAbsentIsNoop(favs, p.id);
    assert Remove([p], p.id) == [];
  }

  /** With unique identifiers, removing a saved identifier drops exactly one favourite. */
  lemma RemoveDropsOne(favs: seq<Listing>, id: string)
    requires UniqueIds(favs) && HasId(favs, id)
    ensures |Remove(favs, id)| == |favs| - 1
  {
    if favs[0].id == id {
      assert Remove(favs, id) == Remove(favs[1..], id);
      forall i | 0 <= i < |favs| - 1
        ensures favs[1..][i].id != id
      {
        assert favs[i + 1].id != favs[0].id;
      }
      RemoveAbsentIsNoop(favs[1..], id);
    } else {
      assert Remove(favs, id) == [favs[0]] + Remove(favs[1..], id);
      var i :| 0 <= i < |favs| && favs[i].id == id;
      assert favs[1..][i - 1].id == id;
      RemoveDropsOne(favs[1..], id);
    }
  }
}
