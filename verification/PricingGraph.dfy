/** validateIncludedChargeGraph: which "included in" declarations are accepted. */
module PricingGraph {
  import opened Wrappers
  import opened PricingModel

  predicate LegalIncludedPair(detail: Basis, root: Basis) {
    || (detail == CachedInputTokens && root == InputTokens)
    || (detail == ReasoningTokens && root == OutputTokens)
  }

  /** The rows by basis; a later row replaces an earlier one. */
  function Charged(rows: seq<Charge>): map<Basis, Charge> {
    if rows == [] then map[]
    else var last := rows[|rows| - 1]; Charged(rows[..|rows| - 1])[last.basis := last]
  }

  /** The charged basis at the end of the inclusion chain from `current`; None
      when the chain returns to a visited basis or leaves the charged rows. */
  function ChainRoot(charged: map<Basis, Charge>, current: Charge, visited: set<Basis>): Option<Basis>
    decreases charged.Keys - visited
  {
    if current.includedIn.None? then Some(current.basis)
    else
      var parent := current.includedIn.value;
      if parent in visited || parent !in charged then None
      else
        assert parent in charged.Keys - visited;
        ChainRoot(charged, charged[parent], visited + {parent})
  }

  predicate ChainAccepted(charged: map<Basis, Charge>, row: Charge) {
    row.includedIn.Some? ==>
      var root := ChainRoot(charged, row, {row.basis});
      root.Some? && LegalIncludedPair(row.basis, root.value)
  }

  predicate GraphAccepts(rows: seq<Charge>, inapplicable: seq<Basis>) {
    var charged := Charged(rows);
    && (forall b | b in inapplicable :: b !in charged)
    && (forall row | row in rows :: ChainAccepted(charged, row))
  }

  method ValidateIncludedChargeGraph(rows: seq<Charge>, inapplicable: seq<Basis>) returns (ok: bool)
    ensures ok == GraphAccepts(rows, inapplicable)
  {
    var charged: map<Basis, Charge> := map[];
    for i := 0 to |rows|
      invariant charged == Charged(rows[..i])
    {
      charged := charged[rows[i].basis := rows[i]];
      assert rows[..i + 1][..i] == rows[..i];
    }
    assert rows[..|rows|] == rows;
    for i := 0 to |inapplicable|
      invariant forall k | 0 <= k < i :: inapplicable[k] !in charged
    {
      if inapplicable[i] in charged { return false; }
    }
    for i := 0 to |rows|
      invariant forall k | 0 <= k < i :: ChainAccepted(charged, rows[k])
    {
      var row := rows[i];
      if row.includedIn.None? { continue; }
      var visited, current := {row.basis}, row;
      while current.includedIn.Some?
        invariant ChainRoot(charged, current, visited) == ChainRoot(charged, row, {row.basis})
        decreases charged.Keys - visited, current.includedIn.Some?
      {
        var parent := current.includedIn.value;
        if parent in visited {
          assert !ChainAccepted(charged, row);
          return false;
        }
        visited := visited + {parent};
        if parent !in charged {
          assert !ChainAccepted(charged, row);
          return false;
        }
        assert parent in charged.Keys;
        current := charged[parent];
      }
      if !LegalIncludedPair(row.basis, current.basis) {
        assert !ChainAccepted(charged, row);
        return false;
      }
    }
    return true;
  }

  lemma {:induction false} ChargedKeys(rows: seq<Charge>)
    ensures forall b :: b in Charged(rows) <==> exists i :: 0 <= i < |rows| && rows[i].basis == b
    ensures forall b | b in Charged(rows) :: Charged(rows)[b] in rows && Charged(rows)[b].basis == b
  {
    if rows != [] {
      var front, last := rows[..|rows| - 1], rows[|rows| - 1];
      ChargedKeys(front);
      forall b ensures b in Charged(rows) <==> exists i :: 0 <= i < |rows| && rows[i].basis == b {
        if b in Charged(front) {
          var i :| 0 <= i < |front| && front[i].basis == b;
          assert rows[i].basis == b;
        }
        if exists i :: 0 <= i < |rows| && rows[i].basis == b {
          var i :| 0 <= i < |rows| && rows[i].basis == b;
          if i < |front| { assert front[i].basis == b; }
        }
      }
    }
  }

  /** With unique bases the map holds exactly the rows. */
  lemma ChargedLookup(rows: seq<Charge>, row: Charge)
    requires UniqueBases(rows) && row in rows
    ensures row.basis in Charged(rows) && Charged(rows)[row.basis] == row
  {
    ChargedKeys(rows);
    var i :| 0 <= i < |rows| && rows[i] == row;
    assert row.basis in Charged(rows);
    var other := Charged(rows)[row.basis];
    var j :| 0 <= j < |rows| && rows[j] == other;
  }

  /** Visiting less never loses a root. */
  lemma {:induction false} ChainMonotone(charged: map<Basis, Charge>, current: Charge, small: set<Basis>, large: set<Basis>)
    requires small <= large && ChainRoot(charged, current, large).Some?
    ensures ChainRoot(charged, current, small) == ChainRoot(charged, current, large)
    decreases charged.Keys - large
  {
    if current.includedIn.Some? {
      var parent := current.includedIn.value;
      assert parent in charged.Keys - large;
      ChainMonotone(charged, charged[parent], small + {parent}, large + {parent});
    }
  }

  /** `row` is not included in anything, or directly in a row that is charged for
      itself and that it may be a detail of. */
  ghost predicate DirectlyIncluded(rows: seq<Charge>, row: Charge) {
    row.includedIn.Some? ==>
      exists parent :: parent in rows && parent.basis == row.includedIn.value
        && parent.includedIn.None? && LegalIncludedPair(row.basis, parent.basis)
  }

  ghost predicate Disjoint(rows: seq<Charge>, inapplicable: seq<Basis>) {
    forall b, row | b in inapplicable && row in rows :: row.basis != b
  }

  ghost predicate DirectInclusions(rows: seq<Charge>) {
    forall row | row in rows :: DirectlyIncluded(rows, row)
  }

  /** The chain walk accepts exactly the depth-one inclusions: a longer chain to a
      legal root would need two details of one root, and each root has only one. */
  lemma GraphAcceptsDirectInclusions(rows: seq<Charge>, inapplicable: seq<Basis>)
    requires UniqueBases(rows) && Disjoint(rows, inapplicable)
    ensures GraphAccepts(rows, inapplicable) <==> DirectInclusions(rows)
  {
    var charged := Charged(rows);
    ChargedKeys(rows);
    if DirectInclusions(rows) {
      forall row | row in rows ensures ChainAccepted(charged, row) {
        DirectChainAccepted(rows, row);
      }
    }
    if GraphAccepts(rows, inapplicable) {
      forall row | row in rows ensures DirectlyIncluded(rows, row) {
        AcceptedChainIsDirect(rows, row);
      }
    }
  }

  lemma DirectChainAccepted(rows: seq<Charge>, row: Charge)
    requires UniqueBases(rows) && row in rows && DirectlyIncluded(rows, row)
    ensures ChainAccepted(Charged(rows), row)
  {
    if row.includedIn.Some? {
      var parent :| parent in rows && parent.basis == row.includedIn.value
        && parent.includedIn.None? && LegalIncludedPair(row.basis, parent.basis);
      ChargedLookup(rows, parent);
    }
  }

  lemma AcceptedChainIsDirect(rows: seq<Charge>, row: Charge)
    requires UniqueBases(rows) && row in rows
    requires forall r | r in rows :: ChainAccepted(Charged(rows), r)
    ensures DirectlyIncluded(rows, row)
  {
    var charged := Charged(rows);
    ChargedKeys(rows);
    if row.includedIn.Some? {
      assert ChainAccepted(charged, row);
      var parent := charged[row.includedIn.value];
      assert ChainRoot(charged, row, {row.basis}) == ChainRoot(charged, parent, {row.basis} + {parent.basis});
      ChainMonotone(charged, parent, {parent.basis}, {row.basis} + {parent.basis});
      assert ChainAccepted(charged, parent);
    }
  }
}
