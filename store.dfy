/**
 * Identifiers the document store hands out: the store issues the `n`-th
 * identifier of a collection as the decimal text of `n`, so a collection
 * that counts its saves never issues one twice.
 */
module Store {

  import opened Text

  function IdFor(n: nat): (id: string)
    ensures id != ""
  {
    NatStr(n)
  }

  /** The identifiers of a collection's records, in order. */
  function IdsOf<T>(records: seq<T>, id: T -> string): (ids: seq<string>)
    ensures |ids| == |records| && forall i :: 0 <= i < |records| ==> ids[i] == id(records[i])
  {
    seq(|records|, i requires 0 <= i < |records| => id(records[i]))
  }

  /** The identifiers issued before the `next`-th save. */
  function Issued(next: nat): set<string> {
    set k | 0 <= k < next :: IdFor(k)
  }

  /** Every id was issued, and no two are equal. */
  predicate FreshIds(ids: seq<string>, next: nat) {
    && (forall i :: 0 <= i < |ids| ==> ids[i] in Issued(next))
    && (forall i, j :: 0 <= i < j < |ids| ==> ids[i] != ids[j])
  }

  /** The next identifier is new, and issuing it extends the issued set by it. */
  lemma NextIdFresh(next: nat)
    ensures IdFor(next) !in Issued(next)
    ensures Issued(next + 1) == Issued(next) + {IdFor(next)}
  {
    if IdFor(next) in Issued(next) {
      var k :| 0 <= k < next && IdFor(k) == IdFor(next);
      NatStrInjective(k, next);
    }
  }

  /** Appending the next identifier keeps the ids fresh. */
  lemma AppendNextId(ids: seq<string>, next: nat)
    requires FreshIds(ids, next)
    ensures FreshIds(ids + [IdFor(next)], next + 1)
  {
    NextIdFresh(next);
  }
}
