/** The order in which the `events` table is read: by ledger, then by id as text. */
module TextOrder {
  import opened Events

  /** Character-code order on text. */
  predicate TextLess(a: string, b: string)
    decreases |a|
  {
    if b == "" then false
    else if a == "" then true
    else if a[0] != b[0] then a[0] < b[0]
    else TextLess(a[1..], b[1..])
  }

  /** At place `k` the texts differ for the first time, or the first one ends. */
  predicate DiffersAt(a: string, b: string, k: nat) {
    k <= |a| && k < |b| && a[..k] == b[..k] && (k < |a| ==> a[k] < b[k])
  }

  /** Text is ordered by its first difference, and a proper prefix comes first. */
  lemma {:induction false} TextLessIff(a: string, b: string)
    ensures TextLess(a, b) <==> exists k: nat :: DiffersAt(a, b, k)
    decreases |a|
  {
    if a == "" || b == "" || a[0] != b[0] {
      if TextLess(a, b) {
        assert DiffersAt(a, b, 0);
      }
    } else {
      TextLessIff(a[1..], b[1..]);
      if TextLess(a[1..], b[1..]) {
        var k: nat :| DiffersAt(a[1..], b[1..], k);
        assert a[..k + 1] == [a[0]] + a[1..][..k] && b[..k + 1] == [b[0]] + b[1..][..k];
        assert DiffersAt(a, b, k + 1);
      }
      if k: nat :| DiffersAt(a, b, k) {
        assert a[1..][..k - 1] == a[..k][1..] && b[1..][..k - 1] == b[..k][1..];
        assert DiffersAt(a[1..], b[1..], k - 1);
      }
    }
  }

  lemma {:induction false} TextIrreflexive(a: string)
    ensures !TextLess(a, a)
    decreases |a|
  {
    if a != "" {
      TextIrreflexive(a[1..]);
    }
  }

  lemma {:induction false} TextTransitive(a: string, b: string, c: string)
    requires TextLess(a, b) && TextLess(b, c)
    ensures TextLess(a, c)
    decreases |a|
  {
    if a != "" && a[0] == b[0] == c[0] {
      TextTransitive(a[1..], b[1..], c[1..]);
    }
  }

  lemma {:induction false} TextTotal(a: string, b: string)
    ensures a == b || TextLess(a, b) || TextLess(b, a)
    decreases |a|
  {
    if a != "" && b != "" && a[0] == b[0] {
      TextTotal(a[1..], b[1..]);
      assert a == [a[0]] + a[1..] && b == [b[0]] + b[1..];
    }
  }

  /** `ORDER BY ledger ASC, id ASC`. */
  predicate Before(x: Event, y: Event) {
    x.ledger < y.ledger || (x.ledger == y.ledger && TextLess(x.id, y.id))
  }

  /** An event of an earlier ledger comes first, whatever the ids; within one ledger the ids decide. */
  lemma LedgersComeFirst(x: Event, y: Event)
    ensures x.ledger < y.ledger ==> Before(x, y) && !Before(y, x)
    ensures x.ledger == y.ledger ==> (Before(x, y) <==> exists k: nat :: DiffersAt(x.id, y.id, k))
  {
    TextLessIff(x.id, y.id);
  }

  lemma BeforeIrreflexive(x: Event)
    ensures !Before(x, x)
  {
    TextIrreflexive(x.id);
  }

  lemma BeforeTransitive(x: Event, y: Event, z: Event)
    requires Before(x, y) && Before(y, z)
    ensures Before(x, z)
  {
    if x.ledger == y.ledger == z.ledger {
      TextTransitive(x.id, y.id, z.id);
    }
  }

  /** Two events that are not ordered either way carry the same id. */
  lemma BeforeTotal(x: Event, y: Event)
    ensures Before(x, y) || Before(y, x) || x.id == y.id
  {
    TextTotal(x.id, y.id);
  }

  ghost predicate Ascending(evs: seq<Event>) {
    forall i, j :: 0 <= i < j < |evs| ==> Before(evs[i], evs[j])
  }
}
