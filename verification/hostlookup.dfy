// The generated lookup of a host function by import module and field.
module HostLookup {
  import opened Sequences

  /** A row of the static table. */
  datatype Entry = Entry(modName: string, field: string, id: nat)

  const INVALID: int := -1

  predicate IsRoot(m: string) { m == "$root" || m == "env" }

  /** The row answers the request, '-' and '_' being the same in fields; `$root` and `env` stand for every module. */
  predicate Answers(e: Entry, m: string, f: string)
  {
    (IsRoot(m) || e.modName == m) && Underscored(e.field) == Underscored(f)
  }

  /** memcmp on the first `n` characters. */
  function MemCmp(a: string, b: string, n: nat): int
    requires n <= |a| && n <= |b|
    decreases n
  {
    if n == 0 then 0
    else if a[0] != b[0] then (if a[0] < b[0] then -1 else 1)
    else MemCmp(a[1..], b[1..], n - 1)
  }

  lemma {:induction false} MemCmpZero(a: string, b: string, n: nat)
    requires n <= |a| && n <= |b|
    ensures MemCmp(a, b, n) == 0 <==> a[..n] == b[..n]
    decreases n
  {
    if n > 0 {
      MemCmpZero(a[1..], b[1..], n - 1);
      assert a[..n] == [a[0]] + a[1..][..n - 1] && b[..n] == [b[0]] + b[1..][..n - 1];
    }
  }

  /** The order of the dictionary. */
  predicate Before(a: string, b: string)
  {
    exists k :: 0 <= k <= |a| && k <= |b| && a[..k] == b[..k] && ((k == |a| < |b|) || (k < |a| && k < |b| && a[k] < b[k]))
  }

  lemma {:induction false} MemCmpSign(a: string, b: string, n: nat)
    requires n <= |a| && n <= |b|
    ensures MemCmp(a, b, n) < 0 ==> exists k :: 0 <= k < n && a[..k] == b[..k] && a[k] < b[k]
    ensures MemCmp(a, b, n) > 0 ==> exists k :: 0 <= k < n && a[..k] == b[..k] && a[k] > b[k]
    decreases n
  {
    if n > 0 {
      if a[0] != b[0] {
        assert a[..0] == b[..0];
      } else {
        MemCmpSign(a[1..], b[1..], n - 1);
        if k :| 0 <= k < n - 1 && a[1..][..k] == b[1..][..k] && a[1..][k] != b[1..][k] && (a[1..][k] < b[1..][k] <==> MemCmp(a, b, n) < 0) {
          assert a[..k + 1] == [a[0]] + a[1..][..k] && b[..k + 1] == [b[0]] + b[1..][..k];
        }
      }
    }
  }

  /** memcmp on the common length, then the lengths. */
  method CompareNames(a: string, b: string) returns (cmp: int)
    ensures cmp == 0 <==> a == b
    ensures cmp < 0 ==> Before(a, b)
    ensures cmp > 0 ==> Before(b, a)
  {
    var n := if |a| < |b| then |a| else |b|;
    cmp := MemCmp(a, b, n);
    MemCmpZero(a, b, n);
    MemCmpSign(a, b, n);
    assert a[..n] == b[..n] && |a| != |b| ==> (if |a| < |b| then a[..|a|] == b[..|a|] else b[..|b|] == a[..|b|]);
    if cmp == 0 {
      if |a| < |b| { cmp := -1; } else if |a| > |b| { cmp := 1; }
    }
  }

  /** Binary search for the exact pair; it may miss, since the table is sorted by another key. */
  method SearchExact(table: seq<Entry>, m: string, f: string) returns (id: int)
    ensures id == INVALID || exists i :: 0 <= i < |table| && table[i].modName == m && table[i].field == f && id == table[i].id
  {
    var low, high := 0, |table| - 1;
    while low <= high
      invariant 0 <= low && high < |table|
      decreases high - low + 1
    {
      var mid := low + (high - low) / 2;
      var cmp := CompareNames(m, table[mid].modName);
      if cmp == 0 { cmp := CompareNames(f, table[mid].field); }
      if cmp == 0 { return table[mid].id; }
      if cmp < 0 { high := mid - 1; } else { low := mid + 1; }
    }
    id := INVALID;
  }

  /** The character loop that takes '-' for '_'. */
  method SameField(f: string, s2: string) returns (same: bool)
    ensures same <==> Underscored(f) == Underscored(s2)
  {
    if |f| != |s2| { return false; }
    for j := 0 to |f|
      invariant forall k :: 0 <= k < j ==> Underscored(f)[k] == Underscored(s2)[k]
    {
      var c1, c2 := f[j], s2[j];
      if c1 == '-' { c1 := '_'; }
      if c2 == '-' { c2 := '_'; }
      if c1 != c2 {
        assert Underscored(f)[j] != Underscored(s2)[j];
        return false;
      }
    }
    same := true;
  }

  /** Rows of one module differ also when '-' and '_' are the same. */
  predicate DistinctRows(table: seq<Entry>)
  {
    forall i, j :: 0 <= i < j < |table| && table[i].modName == table[j].modName ==> Underscored(table[i].field) != Underscored(table[j].field)
  }

  /** The lookup: some answering row's id, or INVALID exactly when no row answers; when the
      rows are distinct a named module's answer is unique; for the root module the first row with exactly the field's
      spelling wins. */
  method Lookup(table: seq<Entry>, m: string, f: string) returns (id: int)
    ensures id == INVALID <==> forall i :: 0 <= i < |table| ==> !Answers(table[i], m, f)
    ensures id != INVALID ==> exists i :: 0 <= i < |table| && Answers(table[i], m, f) && id == table[i].id
    ensures DistinctRows(table) && !IsRoot(m) ==> forall i :: 0 <= i < |table| && Answers(table[i], m, f) ==> id == table[i].id
    ensures IsRoot(m) ==> forall i :: 0 <= i < |table| && table[i].field == f && (forall j :: 0 <= j < i ==> table[j].field != f) ==> id == table[i].id
  {
    if IsRoot(m) {
      for i := 0 to |table|
        invariant forall j :: 0 <= j < i ==> table[j].field != f
      {
        if table[i].field == f {
          assert Answers(table[i], m, f);
          return table[i].id;
        }
      }
    } else {
      id := SearchExact(table, m, f);
      if id != INVALID {
        var i :| 0 <= i < |table| && table[i].modName == m && table[i].field == f && id == table[i].id;
        assert Answers(table[i], m, f);
        return;
      }
    }
    for i := 0 to |table|
      invariant forall j :: 0 <= j < i ==> !Answers(table[j], m, f)
    {
      if IsRoot(m) || table[i].modName == m {
        var same := SameField(f, table[i].field);
        if same {
          assert Answers(table[i], m, f);
          return table[i].id;
        }
      }
    }
    id := INVALID;
  }
}
