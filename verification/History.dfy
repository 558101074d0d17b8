/** The position history: one sequence of entries in the order of their ids. */
module History {
  import opened Wrappers
  import opened UnitFields

  datatype Entry = Entry(unit: nat, position: Position, recordedBy: Option<nat>) {
    /** When the position was measured. */
    function At(): int { position.timestamp.instant }
  }

  /** Entry `i` comes first among its unit's entries by (timestamp DESC, id DESC). */
  predicate IsNewest(h: seq<Entry>, i: nat)
    requires i < |h|
  {
    forall j | 0 <= j < |h| && h[j].unit == h[i].unit :: h[j].At() < h[i].At() || (h[j].At() == h[i].At() && j <= i)
  }

  /** The unit's newest entry. */
  function Newest(h: seq<Entry>, unit: nat): (r: Option<Entry>)
    ensures r.None? <==> forall i | 0 <= i < |h| :: h[i].unit != unit
    ensures r.Some? ==> r.value in h && r.value.unit == unit
  {
    if h == [] then None
    else
      var last, older := h[|h| - 1], Newest(h[..|h| - 1], unit);
      if last.unit != unit || (older.Some? && older.value.At() > last.At()) then older else Some(last)
  }

  /** The unit's entries, oldest first. */
  function EntriesOf(h: seq<Entry>, unit: nat): seq<Entry> {
    if h == [] then []
    else EntriesOf(h[..|h| - 1], unit) + (if h[|h| - 1].unit == unit then [h[|h| - 1]] else [])
  }

  /** The history without the unit's entries. */
  function Without(h: seq<Entry>, unit: nat): (r: seq<Entry>)
    ensures forall e :: e in r <==> e in h && e.unit != unit
  {
    if h == [] then []
    else Without(h[..|h| - 1], unit) + (if h[|h| - 1].unit != unit then [h[|h| - 1]] else [])
  }

  /** Whether a cleanup with this cutoff keeps entry `i`. */
  predicate Kept(h: seq<Entry>, cutoff: int, i: nat)
    requires i < |h|
  {
    h[i].At() >= cutoff || IsNewest(h, i)
  }

  /** What the first `n` entries of `h` leave in a cleaned `h`. */
  function CleanedPrefix(h: seq<Entry>, cutoff: int, n: nat): (r: seq<Entry>)
    requires n <= |h|
    ensures |r| <= n
    ensures forall e :: e in r <==> exists i | 0 <= i < n :: h[i] == e && Kept(h, cutoff, i)
  {
    if n == 0 then []
    else CleanedPrefix(h, cutoff, n - 1) + (if Kept(h, cutoff, n - 1) then [h[n - 1]] else [])
  }

  /** deleteHistoryBefore */
  function Cleaned(h: seq<Entry>, cutoff: int): (r: seq<Entry>)
    ensures |r| <= |h|
    ensures forall e :: e in r <==> exists i | 0 <= i < |h| :: h[i] == e && Kept(h, cutoff, i)
  {
    CleanedPrefix(h, cutoff, |h|)
  }

  lemma NewestOfAppended(h: seq<Entry>, e: Entry, unit: nat)
    ensures Newest(h + [e], unit) ==
              if e.unit != unit || (Newest(h, unit).Some? && Newest(h, unit).value.At() > e.At())
              then Newest(h, unit)
              else Some(e)
    ensures EntriesOf(h + [e], unit) == EntriesOf(h, unit) + if e.unit == unit then [e] else []
  {
    assert (h + [e])[..|h|] == h;
  }

  /** The recursive definition finds the entry the ordering names. */
  lemma {:induction false} NewestIsNewest(h: seq<Entry>, unit: nat) returns (g: nat)
    requires Newest(h, unit).Some?
    ensures g < |h| && h[g].unit == unit && IsNewest(h, g) && Newest(h, unit) == Some(h[g])
  {
    var init := h[..|h| - 1];
    if Newest(h, unit) == Newest(init, unit) {
      g := NewestIsNewest(init, unit);
      if h[|h| - 1].unit == unit && h[|h| - 1].At() == h[g].At() {
        g := |h| - 1;
      }
    } else {
      g := |h| - 1;
      if Newest(init, unit).Some? {
        var _ := NewestIsNewest(init, unit);
      }
    }
  }

  lemma {:induction false} NewestIsUnique(h: seq<Entry>, g: nat)
    requires g < |h| && IsNewest(h, g)
    ensures Newest(h, h[g].unit) == Some(h[g])
  {
    var k := NewestIsNewest(h, h[g].unit);
  }

  /** Cleanup keeps every unit's newest entry, whatever the cutoff. */
  lemma {:induction false} NewestOfCleaned(h: seq<Entry>, cutoff: int, unit: nat)
    ensures Newest(Cleaned(h, cutoff), unit) == Newest(h, unit)
  {
    if Newest(h, unit).Some? {
      var g := NewestIsNewest(h, unit);
      NewestOfCleanedPrefix(h, cutoff, g, |h|);
    }
  }

  lemma {:induction false} NewestOfCleanedPrefix(h: seq<Entry>, cutoff: int, g: nat, n: nat)
    requires g < n <= |h| && IsNewest(h, g)
    ensures Newest(CleanedPrefix(h, cutoff, n), h[g].unit) == Some(h[g])
  {
    var kept := CleanedPrefix(h, cutoff, n - 1);
    if Kept(h, cutoff, n - 1) {
      NewestOfAppended(kept, h[n - 1], h[g].unit);
    } else {
      assert kept + [] == kept;
    }
    if g < n - 1 {
      NewestOfCleanedPrefix(h, cutoff, g, n - 1);
    }
  }

  lemma {:induction false} OthersWithout(h: seq<Entry>, gone: nat, unit: nat)
    requires unit != gone
    ensures Newest(Without(h, gone), unit) == Newest(h, unit)
    ensures EntriesOf(Without(h, gone), unit) == EntriesOf(h, unit)
  {
    if h != [] {
      var init, last := h[..|h| - 1], h[|h| - 1];
      OthersWithout(init, gone, unit);
      if last.unit != gone {
        NewestOfAppended(Without(init, gone), last, unit);
      } else {
        assert Without(init, gone) + [] == Without(init, gone);
      }
    }
  }
}
