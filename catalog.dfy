/**
 * Read-only reference data of the build configurator and the radio-option
 * rows computed from it.
 *
 * A catalog is a normalised collection: `allIds` fixes the display order and
 * `byId` holds the metadata of every id. A radio field's options are obtained
 * by mapping over `allIds`, one `{value, label, disabled}` row per id.
 */
module Catalog {

  datatype Catalog<K(==), M> = Catalog(allIds: seq<K>, byId: map<K, M>)

  /** Every listed id has metadata, so `byId[id]` never fails for a listed id. */
  predicate WellFormed<K, M>(c: Catalog<K, M>)
  {
    forall i :: 0 <= i < |c.allIds| ==> c.allIds[i] in c.byId
  }

  /** No id is listed twice. */
  predicate Distinct<K(==)>(ids: seq<K>)
  {
    forall i, j :: 0 <= i < j < |ids| ==> ids[i] != ids[j]
  }

  /** Metadata with a display title (modes, presets, languages). */
  datatype Titled = Titled(title: string)

  /** One row of a radio field. */
  datatype RadioOption<K> = RadioOption(value: K, caption: string, disabled: bool)

  /**
   * The rows follow the catalog: one row per listed id, in the listed order,
   * each carrying that id as its value.
   */
  predicate FollowsIds<K(==)>(opts: seq<RadioOption<K>>, ids: seq<K>)
  {
    |opts| == |ids| && forall i :: 0 <= i < |ids| ==> opts[i].value == ids[i]
  }

  /** The rows follow the catalog and are labelled with each id's title. */
  predicate FollowsTitles<K(==)>(opts: seq<RadioOption<K>>, c: Catalog<K, Titled>)
    requires WellFormed(c)
  {
    && FollowsIds(opts, c.allIds)
    && forall i :: 0 <= i < |c.allIds| ==> opts[i].caption == c.byId[c.allIds[i]].title
  }

  /** The number of rows a user can pick. */
  function CountEnabled<K>(opts: seq<RadioOption<K>>): (n: nat)
    ensures n <= |opts|
  {
    if opts == [] then 0
    else (if opts[0].disabled then 0 else 1) + CountEnabled(opts[1..])
  }

  /** When every row carries the same flag, either none or all are enabled. */
  lemma {:induction false} EnabledCountUniform<K>(opts: seq<RadioOption<K>>, d: bool)
    requires forall i :: 0 <= i < |opts| ==> opts[i].disabled == d
    ensures CountEnabled(opts) == if d then 0 else |opts|
  {
    if opts != [] {
      EnabledCountUniform(opts[1..], d);
    }
  }

  /**
   * When exactly the rows whose id is `x` are enabled, the number of enabled
   * rows is the number of times `x` is listed.
   */
  lemma {:induction false} EnabledCountIsOccurrences<K>(opts: seq<RadioOption<K>>, ids: seq<K>, x: K)
    requires |opts| == |ids|
    requires forall i :: 0 <= i < |ids| ==> opts[i].disabled == (ids[i] != x)
    ensures CountEnabled(opts) == multiset(ids)[x]
  {
    if opts != [] {
      EnabledCountIsOccurrences(opts[1..], ids[1..], x);
      assert ids == [ids[0]] + ids[1..];
    }
  }

  /** An id of a duplicate-free list occurs in it at most once. */
  lemma {:induction false} DistinctOccursAtMostOnce<K>(ids: seq<K>, x: K)
    requires Distinct(ids)
    ensures multiset(ids)[x] <= 1
  {
    if ids != [] {
      assert ids == [ids[0]] + ids[1..];
      DistinctOccursAtMostOnce(ids[1..], x);
      if ids[0] == x {
        assert x !in ids[1..];
      }
    }
  }
}
