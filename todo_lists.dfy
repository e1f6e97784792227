/** The two list expressions the interface's handlers assign to `todos`
    besides the plain append: the `map` that replaces by id and the `filter`
    that deletes by id, with the count of records an id selects.  Ids compare with `===`, which on an
    `Option<int>` is plain equality (`undefined === undefined` holds). */
module TodoLists {
  import opened Records

  /** How many records carry `id`. */
  function CountId(s: seq<Todo>, id: Option<int>): (n: nat)
    ensures n <= |s|
  {
    if s == [] then 0 else (if s[0].id == id then 1 else 0) + CountId(s[1..], id)
  }

  /** `todos.map(todo => todo.id === id ? { ...t } : todo)`: same length and
      order, every record with `id` replaced by `t`, every other one kept. */
  function ReplaceById(s: seq<Todo>, id: Option<int>, t: Todo): (r: seq<Todo>)
    ensures |r| == |s|
    ensures forall i :: 0 <= i < |s| ==> r[i] == (if s[i].id == id then t else s[i])
  {
    if s == [] then [] else [if s[0].id == id then t else s[0]] + ReplaceById(s[1..], id, t)
  }

  /** `todos.filter(todo => todo.id !== id)`.  It never grows the list;
      `FilterOutIdLength` says by how much it shrinks and
      `FilterOutIdMembers` which records stay. */
  function FilterOutId(s: seq<Todo>, id: Option<int>): (r: seq<Todo>)
    ensures |r| <= |s|
  {
    if s == [] then [] else (if s[0].id == id then [] else [s[0]]) + FilterOutId(s[1..], id)
  }

  /** The length drops by exactly the number of records that carry `id`. */
  lemma {:induction false} FilterOutIdLength(s: seq<Todo>, id: Option<int>)
    ensures |FilterOutId(s, id)| == |s| - CountId(s, id)
  {
    if s != [] {
      FilterOutIdLength(s[1..], id);
    }
  }

  /** A record is kept exactly when it was in the list and its id differs. */
  lemma {:induction false} FilterOutIdMembers(s: seq<Todo>, id: Option<int>)
    ensures forall t :: t in FilterOutId(s, id) <==> t in s && t.id != id
  {
    if s != [] {
      FilterOutIdMembers(s[1..], id);
      assert s == [s[0]] + s[1..];
    }
  }

  /** Filtering distributes over concatenation: together with the facts that
      it keeps a non-matching singleton and drops a matching one, this fixes
      the relative order of the records it keeps. */
  lemma {:induction false} FilterOutIdConcat(a: seq<Todo>, b: seq<Todo>, id: Option<int>)
    ensures FilterOutId(a + b, id) == FilterOutId(a, id) + FilterOutId(b, id)
  {
    if a == [] {
      assert a + b == b;
    } else {
      var ab := a + b;
      assert ab[0] == a[0] && ab[1..] == a[1..] + b;
      FilterOutIdConcat(a[1..], b, id);
      var x, y := FilterOutId(a[1..], id), FilterOutId(b, id);
      if a[0].id == id {
        assert FilterOutId(ab, id) == FilterOutId(a[1..] + b, id);
        assert FilterOutId(a, id) == x;
      } else {
        assert FilterOutId(ab, id) == [a[0]] + (x + y);
        assert FilterOutId(a, id) == [a[0]] + x;
        assert [a[0]] + (x + y) == ([a[0]] + x) + y;
      }
    }
  }

  lemma FilterOutIdSingleton(t: Todo, id: Option<int>)
    ensures FilterOutId([t], id) == if t.id == id then [] else [t]
  {
  }

  /** Deleting an id leaves the list unchanged exactly when no record has it. */
  lemma {:induction false} FilterOutIdUnchangedIffAbsent(s: seq<Todo>, id: Option<int>)
    ensures FilterOutId(s, id) == s <==> CountId(s, id) == 0
  {
    FilterOutIdLength(s, id);
    if s != [] {
      FilterOutIdUnchangedIffAbsent(s[1..], id);
      if CountId(s, id) == 0 {
        assert s == [s[0]] + s[1..];
      }
    }
  }

  /** Filtering is a permutation-free selection: each record keeps its number
      of occurrences unless it carries `id`, in which case none remain. */
  lemma {:induction false} FilterOutIdMultiset(s: seq<Todo>, id: Option<int>, t: Todo)
    ensures multiset(FilterOutId(s, id))[t] == if t.id == id then 0 else multiset(s)[t]
  {
    if s != [] {
      var head := if s[0].id == id then [] else [s[0]];
      FilterOutIdMultiset(s[1..], id, t);
      assert FilterOutId(s, id) == head + FilterOutId(s[1..], id);
      assert multiset(FilterOutId(s, id)) == multiset(head) + multiset(FilterOutId(s[1..], id));
      assert s == [s[0]] + s[1..];
      assert multiset(s) == multiset([s[0]]) + multiset(s[1..]);
    }
  }

  /** Deleting the same id twice is the same as deleting it once. */
  lemma {:induction false} FilterOutIdIdempotent(s: seq<Todo>, id: Option<int>)
    ensures FilterOutId(FilterOutId(s, id), id) == FilterOutId(s, id)
  {
    var r := FilterOutId(s, id);
    assert CountId(r, id) == 0 by {
      FilterOutIdMembers(s, id);
      NoMemberWithIdNoCount(r, id);
    }
    FilterOutIdUnchangedIffAbsent(r, id);
  }

  /** A list none of whose members carries `id` counts no match for it. */
  lemma {:induction false} NoMemberWithIdNoCount(r: seq<Todo>, id: Option<int>)
    requires forall t :: t in r ==> t.id != id
    ensures CountId(r, id) == 0
  {
    if r != [] {
      assert r[0] in r;
      NoMemberWithIdNoCount(r[1..], id);
    }
  }

  /** Replacing by id with a record that carries that same id keeps every
      position's id, so the set of records an id selects does not move. */
  lemma ReplaceByIdKeepsIds(s: seq<Todo>, id: Option<int>, t: Todo)
    requires t.id == id
    ensures forall i :: 0 <= i < |s| ==> ReplaceById(s, id, t)[i].id == s[i].id
  {
  }

  /** Saving the same edit twice gives the same list as saving it once. */
  lemma ReplaceByIdIdempotent(s: seq<Todo>, id: Option<int>, t: Todo)
    requires t.id == id
    ensures ReplaceById(ReplaceById(s, id, t), id, t) == ReplaceById(s, id, t)
  {
  }

  /** Replacing records with `id` and then deleting `id` is just deleting it. */
  lemma {:induction false} ReplaceThenDelete(s: seq<Todo>, id: Option<int>, t: Todo)
    requires t.id == id
    ensures FilterOutId(ReplaceById(s, id, t), id) == FilterOutId(s, id)
  {
    if s != [] {
      ReplaceThenDelete(s[1..], id, t);
      assert ReplaceById(s, id, t)[1..] == ReplaceById(s[1..], id, t);
    }
  }

  /** Deleting the id of a record just appended removes it, and every other
      record with that id: nothing makes appended ids unique. */
  lemma AppendThenDelete(s: seq<Todo>, t: Todo)
    ensures FilterOutId(s + [t], t.id) == FilterOutId(s, t.id)
  {
    FilterOutIdConcat(s, [t], t.id);
    FilterOutIdSingleton(t, t.id);
  }
}
