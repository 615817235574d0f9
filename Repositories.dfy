/**
 * The four JPA repositories as tables of rows: findAll() answers a table
 * in its stored order, findById the row with that id, and a lazy
 * association (module.getCourse(), group.getModule(), lesson.getLessonGroup())
 * is a lookup of the referenced id.
 */
module Repositories {
  import opened Wrappers
  import opened Entities

  datatype Row<T> = Row(id: Id, value: T)

  datatype Tables = Tables(
    courses: seq<Row<Course>>,
    modules: seq<Row<Module>>,
    groups: seq<Row<LessonGroup>>,
    lessons: seq<Row<Lesson>>)

  /** Primary keys: no id appears on two rows of a table. */
  predicate UniqueIds<T>(rows: seq<Row<T>>)
  {
    forall i, j :: 0 <= i < j < |rows| ==> rows[i].id != rows[j].id
  }

  /** findById: the value of the row with that id, None when there is none. */
  function FindById<T>(rows: seq<Row<T>>, id: Id): (r: Option<T>)
    ensures r.Some? ==> Row(id, r.value) in rows
    ensures r.None? <==> forall i :: 0 <= i < |rows| ==> rows[i].id != id
  {
    if rows == [] then None
    else if rows[0].id == id then Some(rows[0].value)
    else
      var r := FindById(rows[1..], id);
      assert forall i :: 1 <= i < |rows| ==> rows[i] == rows[1..][i - 1];
      r
  }

  /** With unique ids the row whose id is looked up is the one found. */
  lemma {:induction false} FindByIdRow<T>(rows: seq<Row<T>>, i: nat)
    requires UniqueIds(rows) && i < |rows|
    ensures FindById(rows, rows[i].id) == Some(rows[i].value)
  {
    if i > 0 {
      assert rows[0].id != rows[i].id;
      assert rows[1..][i - 1] == rows[i];
      assert UniqueIds(rows[1..]) by {
        forall a, b | 0 <= a < b < |rows[1..]| ensures rows[1..][a].id != rows[1..][b].id {
          assert rows[1..][a] == rows[a + 1] && rows[1..][b] == rows[b + 1];
        }
      }
      FindByIdRow(rows[1..], i - 1);
    }
  }

  /** save: the row with that id takes the new value; a table without the id gains the row at its end. */
  function Save<T>(rows: seq<Row<T>>, id: Id, v: T): (r: seq<Row<T>>)
    ensures FindById(r, id) == Some(v)
    ensures forall other :: other != id ==> FindById(r, other) == FindById(rows, other)
    ensures |r| == |rows| + (if FindById(rows, id).None? then 1 else 0)
  {
    if rows == [] then [Row(id, v)]
    else if rows[0].id == id then [Row(id, v)] + rows[1..]
    else
      var rest := Save(rows[1..], id, v);
      var r := [rows[0]] + rest;
      assert r[1..] == rest;
      r
  }

  /** Saving keeps the ids of a table distinct. */
  lemma {:induction false} SaveUnique<T>(rows: seq<Row<T>>, id: Id, v: T)
    requires UniqueIds(rows)
    ensures UniqueIds(Save(rows, id, v))
  {
    if rows != [] && rows[0].id != id {
      assert UniqueIds(rows[1..]) by {
        forall a, b | 0 <= a < b < |rows[1..]| ensures rows[1..][a].id != rows[1..][b].id {
          assert rows[1..][a] == rows[a + 1] && rows[1..][b] == rows[b + 1];
        }
      }
      SaveUnique(rows[1..], id, v);
      assert FindById(rows[1..], rows[0].id).None? by {
        forall j | 0 <= j < |rows[1..]| ensures rows[1..][j].id != rows[0].id {
          assert rows[1..][j] == rows[j + 1];
        }
      }
      var rest := Save(rows[1..], id, v);
      assert FindById(rest, rows[0].id).None?;
    } else if rows != [] {
      assert forall k :: 1 <= k < |rows| ==> rows[k].id != id;
    }
  }

  /** Every reference that is set names a row of the referenced table. */
  predicate Linked(t: Tables)
  {
    && (forall i :: 0 <= i < |t.modules| && t.modules[i].value.course.Some? ==>
          FindById(t.courses, t.modules[i].value.course.value).Some?)
    && (forall i :: 0 <= i < |t.groups| && t.groups[i].value.parentModule.Some? ==>
          FindById(t.modules, t.groups[i].value.parentModule.value).Some?)
    && (forall i :: 0 <= i < |t.lessons| && t.lessons[i].value.lessonGroup.Some? ==>
          FindById(t.groups, t.lessons[i].value.lessonGroup.value).Some?)
  }

  /** The rows of a table that satisfy p, in table order (a stream filter). */
  function Select<T(!new)>(rows: seq<T>, p: T -> bool): (r: seq<T>)
    ensures |r| <= |rows|
    ensures forall x :: x in r <==> x in rows && p(x)
  {
    if rows == [] then []
    else
      var rest := Select(rows[1..], p);
      assert forall x :: x in rows <==> x == rows[0] || x in rows[1..];
      (if p(rows[0]) then [rows[0]] else []) + rest
  }

  /** Filtering distributes over concatenation, so the selected rows keep their relative order. */
  lemma {:induction false} SelectAppend<T(!new)>(a: seq<T>, b: seq<T>, p: T -> bool)
    ensures Select(a + b, p) == Select(a, p) + Select(b, p)
  {
    if a != [] {
      assert (a + b)[0] == a[0];
      assert (a + b)[1..] == a[1..] + b;
      SelectAppend(a[1..], b, p);
    } else {
      assert a + b == b;
    }
  }

  /** A filter that every row passes keeps the whole table. */
  lemma {:induction false} SelectAll<T(!new)>(rows: seq<T>, p: T -> bool)
    requires forall i :: 0 <= i < |rows| ==> p(rows[i])
    ensures Select(rows, p) == rows
  {
    if rows != [] {
      assert forall i :: 0 <= i < |rows[1..]| ==> p(rows[1..][i]) by {
        forall i | 0 <= i < |rows[1..]| ensures p(rows[1..][i]) { assert rows[1..][i] == rows[i + 1]; }
      }
      SelectAll(rows[1..], p);
      assert [rows[0]] + rows[1..] == rows;
    }
  }

  /** Filtering twice, the second time by a stronger test, is filtering once by it. */
  lemma {:induction false} SelectSelect<T(!new)>(rows: seq<T>, p: T -> bool, q: T -> bool)
    requires forall x :: q(x) ==> p(x)
    ensures Select(Select(rows, p), q) == Select(rows, q)
  {
    if rows != [] {
      SelectSelect(rows[1..], p, q);
      var s := Select(rows, p);
      if p(rows[0]) {
        assert s == [rows[0]] + Select(rows[1..], p);
        assert s[0] == rows[0] && s[1..] == Select(rows[1..], p);
        assert Select(s, q) == (if q(rows[0]) then [rows[0]] else []) + Select(s[1..], q);
      } else {
        assert !q(rows[0]);
        assert s == Select(rows[1..], p);
        assert Select(rows, q) == Select(rows[1..], q);
      }
    }
  }

  /** Stream.map: applies f to every element, in order. */
  function MapSeq<T, U>(s: seq<T>, f: T -> U): (r: seq<U>)
    ensures |r| == |s|
    ensures forall i :: 0 <= i < |s| ==> r[i] == f(s[i])
  {
    seq(|s|, i requires 0 <= i < |s| => f(s[i]))
  }
}
