/** The wishlist held by App.tsx: a list of product ids with a membership toggle. */
module Wishlist {
  import opened Seqs

  function Without(id: int): int -> bool
  {
    (x: int) => x != id
  }

  /**
   * `handleToggleWishlist`: an id already present is removed (every copy,
   * the rest keep their order); an absent id is appended at the end.
   */
  function Toggle(wishlist: seq<int>, id: int): (r: seq<int>)
    ensures id in wishlist ==> id !in r && IsSubsequence(r, wishlist)
    ensures id !in wishlist ==> r == wishlist + [id]
    ensures forall x :: x != id ==> (x in r <==> x in wishlist)
    ensures NoDuplicates(wishlist) ==> NoDuplicates(r)
  {
    if id in wishlist then
      var r := Filter(Without(id), wishlist);
      SubsequenceKeepsDistinct(r, wishlist);
      r
    else
      wishlist + [id]
  }

  /** A subsequence of a duplicate-free sequence is duplicate-free. */
  lemma SubsequenceKeepsDistinct(a: seq<int>, b: seq<int>)
    requires IsSubsequence(a, b)
    ensures NoDuplicates(b) ==> NoDuplicates(a)
  {
    if NoDuplicates(b) {
      forall i, j | 0 <= i < j < |a| ensures a[i] != a[j] {
        SubsequenceKeepsOrder(a, b, i, j);
      }
    }
  }

  /** Toggling the same id twice restores which ids are wished for. */
  lemma ToggleTwiceRestoresMembership(wishlist: seq<int>, id: int)
    ensures forall x :: x in Toggle(Toggle(wishlist, id), id) <==> x in wishlist
  {
  }

  /** Toggling an absent id twice restores the wishlist exactly. */
  lemma ToggleTwiceFromAbsent(wishlist: seq<int>, id: int)
    requires id !in wishlist
    ensures Toggle(Toggle(wishlist, id), id) == wishlist
  {
    FilterAppend(Without(id), wishlist, [id]);
    FilterKeepsAll(Without(id), wishlist);
  }
}
