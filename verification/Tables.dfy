/**
 * A table of the store: rows in creation order, keyed by name.  SQL statements become functions on
 * such tables; filtering and counting are what the controllers do with a listing.
 */
module Tables {
  import opened Wrappers

  datatype Row<T> = Row(name: string, body: T)

  type Table<T> = seq<Row<T>>

  /** The primary key: no two rows share a name. */
  ghost predicate Unique<T>(t: Table<T>) {
    forall i, j :: 0 <= i < j < |t| ==> t[i].name != t[j].name
  }

  predicate Has<T>(t: Table<T>, name: string) {
    exists i :: 0 <= i < |t| && t[i].name == name
  }

  /** SELECT ... WHERE name = ? */
  function Get<T>(t: Table<T>, name: string): (r: Option<T>)
    ensures r.Some? <==> Has(t, name)
    ensures r.Some? ==> exists i :: 0 <= i < |t| && t[i] == Row(name, r.value)
  {
    if t == [] then None
    else if t[0].name == name then Some(t[0].body)
    else
      var r := Get(t[1..], name);
      assert r.Some? ==> exists i :: 0 <= i < |t[1..]| && t[i + 1] == Row(name, r.value) && t[1..][i] == t[i + 1];
      assert Has(t, name) ==> Has(t[1..], name) by {
        if Has(t, name) {
          var i :| 0 <= i < |t| && t[i].name == name;
          assert t[1..][i - 1].name == name;
        }
      }
      r
  }

  /** UPDATE ... SET body = ? WHERE name = ? */
  function Put<T>(t: Table<T>, name: string, body: T): (r: Table<T>)
    ensures |r| == |t|
    ensures forall i :: 0 <= i < |t| ==> r[i] == if t[i].name == name then Row(name, body) else t[i]
  {
    seq(|t|, i requires 0 <= i < |t| => if t[i].name == name then Row(name, body) else t[i])
  }

  /** UPDATE of some columns: the named row's body is changed by `how`. */
  function Amended<T>(t: Table<T>, name: string, how: T -> T): (r: Table<T>)
    ensures |r| == |t|
    ensures forall i :: 0 <= i < |t| ==> r[i] == if t[i].name == name then Row(name, how(t[i].body)) else t[i]
  {
    seq(|t|, i requires 0 <= i < |t| => if t[i].name == name then Row(name, how(t[i].body)) else t[i])
  }

  function Filter<T>(t: Table<T>, f: Row<T> -> bool): (r: Table<T>)
    ensures |r| <= |t|
  {
    if t == [] then [] else (if f(t[0]) then [t[0]] else []) + Filter(t[1..], f)
  }

  function NotNamed<T>(name: string): Row<T> -> bool {
    (r: Row<T>) => r.name != name
  }

  /** DELETE ... WHERE name = ? */
  function Remove<T>(t: Table<T>, name: string): Table<T> {
    Filter(t, NotNamed(name))
  }

  function Count<T>(t: Table<T>, f: Row<T> -> bool): nat {
    |Filter(t, f)|
  }

  lemma {:induction false} FilterMembers<T>(t: Table<T>, f: Row<T> -> bool, x: Row<T>)
    ensures x in Filter(t, f) <==> x in t && f(x)
  {
    if t != [] {
      FilterMembers(t[1..], f, x);
      assert t == [t[0]] + t[1..];
    }
  }

  lemma {:induction false} FilterConcat<T>(a: Table<T>, b: Table<T>, f: Row<T> -> bool)
    ensures Filter(a + b, f) == Filter(a, f) + Filter(b, f)
  {
    if a == [] {
      assert a + b == b;
    } else {
      var head := if f(a[0]) then [a[0]] else [];
      calc {
        Filter(a + b, f);
        { assert (a + b)[0] == a[0] && (a + b)[1..] == a[1..] + b; }
        head + Filter(a[1..] + b, f);
        { FilterConcat(a[1..], b, f); }
        head + (Filter(a[1..], f) + Filter(b, f));
        head + Filter(a[1..], f) + Filter(b, f);
        Filter(a, f) + Filter(b, f);
      }
    }
  }

  lemma FilterSnoc<T>(t: Table<T>, i: nat, f: Row<T> -> bool)
    requires i < |t|
    ensures Filter(t[..i + 1], f) == Filter(t[..i], f) + if f(t[i]) then [t[i]] else []
  {
    assert t[..i + 1] == t[..i] + [t[i]];
    FilterConcat(t[..i], [t[i]], f);
  }

  lemma {:induction false} FilterAgrees<T>(t: Table<T>, f: Row<T> -> bool, g: Row<T> -> bool)
    requires forall x :: x in t ==> f(x) == g(x)
    ensures Filter(t, f) == Filter(t, g)
  {
    if t != [] {
      FilterAgrees(t[1..], f, g);
    }
  }

  lemma {:induction false} FilterAll<T>(t: Table<T>, f: Row<T> -> bool)
    requires forall x :: x in t ==> f(x)
    ensures Filter(t, f) == t
  {
    if t != [] {
      FilterAll(t[1..], f);
    }
  }

  lemma {:induction false} FilterCommutes<T>(t: Table<T>, f: Row<T> -> bool, g: Row<T> -> bool)
    ensures Filter(Filter(t, f), g) == Filter(Filter(t, g), f)
  {
    if t != [] {
      FilterCommutes(t[1..], f, g);
      var h := [t[0]];
      FilterConcat(if f(t[0]) then h else [], Filter(t[1..], f), g);
      FilterConcat(if g(t[0]) then h else [], Filter(t[1..], g), f);
      assert Filter(h, f) == if f(t[0]) then h else [];
      assert Filter(h, g) == if g(t[0]) then h else [];
    }
  }

  lemma {:induction false} FilterTwice<T>(t: Table<T>, f: Row<T> -> bool, g: Row<T> -> bool, both: Row<T> -> bool)
    requires forall x :: x in t ==> both(x) == (f(x) && g(x))
    ensures Filter(Filter(t, f), g) == Filter(t, both)
  {
    if t != [] {
      FilterTwice(t[1..], f, g, both);
      FilterConcat(if f(t[0]) then [t[0]] else [], Filter(t[1..], f), g);
      assert t[0] in t;
      assert Filter([t[0]], g) == if g(t[0]) then [t[0]] else [];
    }
  }

  /** Rows changed in place without changing what `f` or `g` says leave as many rows selected. */
  lemma {:induction false} CountPointwise<T>(a: Table<T>, b: Table<T>, f: Row<T> -> bool, g: Row<T> -> bool)
    requires |a| == |b|
    requires forall i :: 0 <= i < |a| ==> f(a[i]) == g(b[i])
    ensures Count(a, f) == Count(b, g)
  {
    if a != [] {
      CountPointwise(a[1..], b[1..], f, g);
    }
  }

  lemma {:induction false} CountAtMost<T>(t: Table<T>, f: Row<T> -> bool, g: Row<T> -> bool)
    requires forall x :: x in t && f(x) ==> g(x)
    ensures Count(t, f) <= Count(t, g)
  {
    if t != [] {
      CountAtMost(t[1..], f, g);
    }
  }

  lemma {:induction false} CountNone<T>(t: Table<T>, f: Row<T> -> bool)
    ensures Count(t, f) == 0 <==> forall i :: 0 <= i < |t| ==> !f(t[i])
  {
    if t != [] {
      CountNone(t[1..], f);
      assert forall i :: 0 <= i < |t| - 1 ==> t[1..][i] == t[i + 1];
      if Count(t, f) == 0 {
        forall i | 0 <= i < |t|
          ensures !f(t[i])
        {
          if i > 0 {
            assert t[1..][i - 1] == t[i];
          }
        }
      }
    }
  }

  /** Counting is counting positions. */
  lemma {:induction false} CountIsSize<T>(t: Table<T>, f: Row<T> -> bool)
    ensures Count(t, f) == |set i | 0 <= i < |t| && f(t[i])|
  {
    var all := set i | 0 <= i < |t| && f(t[i]);
    if t == [] {
      assert all == {};
    } else {
      var n := |t| - 1;
      CountIsSize(t[..n], f);
      FilterSnoc(t, n, f);
      assert t[..n + 1] == t;
      var before := set i | 0 <= i < n && f(t[..n][i]);
      assert (set i | 0 <= i < |t[..n]| && f(t[..n][i])) == before;
      assert all == before + if f(t[n]) then {n} else {};
    }
  }

  lemma {:induction false} UniqueFilter<T>(t: Table<T>, f: Row<T> -> bool)
    requires Unique(t)
    ensures Unique(Filter(t, f))
  {
    if t != [] {
      var rest := t[1..];
      assert forall i :: 0 <= i < |rest| ==> rest[i] == t[i + 1];
      UniqueFilter(rest, f);
      forall x | x in Filter(rest, f)
        ensures x.name != t[0].name
      {
        FilterMembers(rest, f, x);
      }
    }
  }

  lemma UniqueAppend<T>(t: Table<T>, r: Row<T>)
    requires Unique(t) && !Has(t, r.name)
    ensures Unique(t + [r])
  {
    assert forall i :: 0 <= i < |t| ==> (t + [r])[i] == t[i];
  }

  lemma GetInUnique<T>(t: Table<T>, i: nat)
    requires Unique(t) && i < |t|
    ensures Get(t, t[i].name) == Some(t[i].body)
  {
    assert Has(t, t[i].name);
  }

  lemma GetAfterPut<T>(t: Table<T>, name: string, body: T, other: string)
    requires Unique(t)
    ensures Unique(Put(t, name, body))
    ensures Get(Put(t, name, body), other) == if other == name && Has(t, name) then Some(body) else Get(t, other)
  {
    var u := Put(t, name, body);
    assert forall i :: 0 <= i < |t| ==> u[i].name == t[i].name;
    if Has(t, other) {
      var i :| 0 <= i < |t| && t[i].name == other;
      GetInUnique(t, i);
      GetInUnique(u, i);
    } else {
      assert !Has(u, other);
    }
  }

  lemma GetAfterAppend<T>(t: Table<T>, r: Row<T>, other: string)
    requires Unique(t) && !Has(t, r.name)
    ensures Get(t + [r], other) == if other == r.name then Some(r.body) else Get(t, other)
  {
    UniqueAppend(t, r);
    var u := t + [r];
    assert u[|t|] == r;
    if other == r.name {
      GetInUnique(u, |t|);
    } else if Has(t, other) {
      var i :| 0 <= i < |t| && t[i].name == other;
      assert u[i] == t[i];
      GetInUnique(t, i);
      GetInUnique(u, i);
    } else {
      assert !Has(u, other);
    }
  }

  lemma FilterDropsOne<T>(a: Table<T>, x: Row<T>, b: Table<T>, f: Row<T> -> bool)
    requires Filter(a, f) == a && Filter(b, f) == b && !f(x)
    ensures Filter(a + ([x] + b), f) == a + b
  {
    FilterConcat(a, [x] + b, f);
    assert ([x] + b)[1..] == b;
  }

  lemma NoneBeforeHasItsName<T>(t: Table<T>, k: nat)
    requires Unique(t) && k < |t|
    ensures Filter(t[..k], NotNamed(t[k].name)) == t[..k]
  {
    FilterAll(t[..k], NotNamed(t[k].name));
  }

  lemma NoneAfterHasItsName<T>(t: Table<T>, k: nat)
    requires Unique(t) && k < |t|
    ensures Filter(t[k + 1..], NotNamed(t[k].name)) == t[k + 1..]
  {
    forall y | y in t[k + 1..]
      ensures y.name != t[k].name
    {
      var i :| 0 <= i < |t| - k - 1 && t[k + 1..][i] == y;
      assert t[k + 1 + i] == y;
    }
    FilterAll(t[k + 1..], NotNamed(t[k].name));
  }

  /** Deleting the row at position k of a table with unique names closes the gap. */
  lemma RemoveAt<T>(t: Table<T>, k: nat)
    requires Unique(t) && k < |t|
    ensures Remove(t, t[k].name) == t[..k] + t[k + 1..]
  {
    NoneBeforeHasItsName(t, k);
    NoneAfterHasItsName(t, k);
    FilterDropsOne(t[..k], t[k], t[k + 1..], NotNamed(t[k].name));
    assert t == t[..k] + ([t[k]] + t[k + 1..]);
  }

  lemma RemoveAbsent<T>(t: Table<T>, name: string)
    requires !Has(t, name)
    ensures Remove(t, name) == t
  {
    FilterAll(t, NotNamed(name));
  }

  lemma HasAfterRemove<T>(t: Table<T>, name: string, other: string)
    ensures Has(Remove(t, name), other) <==> Has(t, other) && other != name
  {
    var u := Remove(t, name);
    if Has(u, other) {
      var i :| 0 <= i < |u| && u[i].name == other;
      FilterMembers(t, NotNamed(name), u[i]);
      var j :| 0 <= j < |t| && t[j] == u[i];
    }
    if Has(t, other) && other != name {
      var j :| 0 <= j < |t| && t[j].name == other;
      FilterMembers(t, NotNamed(name), t[j]);
      var i :| 0 <= i < |u| && u[i] == t[j];
    }
  }

  lemma {:induction false} SubsetSize<T>(a: set<T>, b: set<T>)
    requires a <= b
    ensures |a| <= |b|
    decreases a
  {
    if a != {} {
      var x :| x in a;
      SubsetSize(a - {x}, b - {x});
    }
  }
}
