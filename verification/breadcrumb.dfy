/**
 * The breadcrumb trail shown above a page: the crumbs given by the caller, or
 * else one crumb per segment of the current pathname after a leading "Home".
 */
module Breadcrumb {
  import opened Optional

  datatype Crumb = Crumb(name: string, path: string)

  const Home: Crumb := Crumb("Home", "/")

  /** The number of '/' characters in `s`. */
  function Slashes(s: string): nat
    decreases |s|
  {
    if s == [] then 0 else (if s[0] == '/' then 1 else 0) + Slashes(s[1..])
  }

  /** `s.split("/")`: the pieces between the slashes, empty ones included; never an empty list. */
  function Split(s: string): (fields: seq<string>)
    ensures |fields| >= 1
    decreases |s|
  {
    if s == [] then [""]
    else
      var rest := Split(s[1..]);
      if s[0] == '/' then [""] + rest else [[s[0]] + rest[0]] + rest[1..]
  }

  /** `fields.join("/")`. */
  function Join(fields: seq<string>): string
    decreases |fields|
  {
    if fields == [] then ""
    else if |fields| == 1 then fields[0]
    else fields[0] + "/" + Join(fields[1..])
  }

  /** Splitting yields one more field than there are slashes, and no field holds a slash. */
  lemma {:induction false} SplitFields(s: string)
    ensures |Split(s)| == Slashes(s) + 1
    ensures forall k :: 0 <= k < |Split(s)| ==> '/' !in Split(s)[k]
    decreases |s|
  {
    if s != [] {
      SplitFields(s[1..]);
      var rest := Split(s[1..]);
      if s[0] != '/' {
        var f := [s[0]] + rest[0];
        assert '/' !in rest[0];
        assert forall c :: c in f ==> c == s[0] || c in rest[0];
        assert Split(s) == [f] + rest[1..];
      }
    }
  }

  /** Joining the fields of a split gives the string back. */
  lemma {:induction false} JoinSplit(s: string)
    ensures Join(Split(s)) == s
    decreases |s|
  {
    if s != [] {
      JoinSplit(s[1..]);
      var rest := Split(s[1..]);
      if s[0] == '/' {
        assert Split(s) == [""] + rest;
        assert Split(s)[1..] == rest;
        assert s == [s[0]] + s[1..];
      } else if |rest| == 1 {
        assert s == [s[0]] + s[1..];
      } else {
        assert Split(s)[1..] == rest[1..];
        assert Join(rest) == rest[0] + "/" + Join(rest[1..]);
        assert s == [s[0]] + s[1..];
      }
    }
  }

  /** A string without slashes splits into itself alone. */
  lemma {:induction false} SplitPlain(a: string)
    requires '/' !in a
    ensures Split(a) == [a]
    decreases |a|
  {
    if a != [] {
      assert '/' !in a[1..] by {
        forall c | c in a[1..] ensures c in a { }
      }
      SplitPlain(a[1..]);
      assert [a[0]] + a[1..] == a;
    }
  }

  /** A slash-free piece followed by a slash contributes exactly one field. */
  lemma {:induction false} SplitAfterField(a: string, b: string)
    requires '/' !in a
    ensures Split(a + "/" + b) == [a] + Split(b)
    decreases |a|
  {
    if a == [] {
      assert a + "/" + b == ['/'] + b;
      assert (['/'] + b)[1..] == b;
    } else {
      assert '/' !in a[1..] by {
        forall c | c in a[1..] ensures c in a { }
      }
      SplitAfterField(a[1..], b);
      var s := a + "/" + b;
      assert s[0] == a[0] && s[1..] == a[1..] + "/" + b;
      assert [a[0]] + a[1..] == a;
    }
  }

  /** Splitting the join of slash-free fields gives the fields back. */
  lemma {:induction false} SplitJoin(fields: seq<string>)
    requires |fields| >= 1
    requires forall k :: 0 <= k < |fields| ==> '/' !in fields[k]
    ensures Split(Join(fields)) == fields
    decreases |fields|
  {
    if |fields| == 1 {
      SplitPlain(fields[0]);
    } else {
      SplitJoin(fields[1..]);
      SplitAfterField(fields[0], Join(fields[1..]));
      assert [fields[0]] + fields[1..] == fields;
    }
  }

  /** Joining two non-empty lists puts one slash between their joins. */
  lemma {:induction false} JoinAppend(a: seq<string>, b: seq<string>)
    requires |a| >= 1 && |b| >= 1
    ensures Join(a + b) == Join(a) + "/" + Join(b)
    decreases |a|
  {
    if |a| == 1 {
      assert (a + b)[1..] == b;
    } else {
      JoinAppend(a[1..], b);
      assert (a + b)[1..] == a[1..] + b;
    }
  }

  /** The path of the next crumb extends the path of this one by a slash and the next field. */
  lemma {:induction false} PathGrows(fields: seq<string>, k: nat)
    requires 1 <= k && k + 1 < |fields|
    ensures Join(fields[1..k + 2]) == Join(fields[1..k + 1]) + "/" + fields[k + 1]
  {
    JoinAppend(fields[1..k + 1], [fields[k + 1]]);
    assert fields[1..k + 1] + [fields[k + 1]] == fields[1..k + 2];
  }

  /**
   * The first field, a slash and the path of crumb `k` are a prefix of the
   * joined fields, and all of them for the last crumb.
   */
  lemma {:induction false} PathInPathname(fields: seq<string>, k: nat)
    requires 1 <= k < |fields|
    ensures fields[0] + "/" + Join(fields[1..k + 1]) <= Join(fields)
    ensures k == |fields| - 1 ==> fields[0] + "/" + Join(fields[1..k + 1]) == Join(fields)
  {
    var head := fields[0] + "/" + Join(fields[1..k + 1]);
    JoinAppend([fields[0]], fields[1..k + 1]);
    assert Join([fields[0]]) == fields[0];
    assert [fields[0]] + fields[1..k + 1] == fields[..k + 1];
    assert Join(fields[..k + 1]) == head;
    if k + 1 < |fields| {
      JoinAppend(fields[..k + 1], fields[k + 1..]);
      assert fields[..k + 1] + fields[k + 1..] == fields;
      assert Join(fields) == head + ("/" + Join(fields[k + 1..]));
    } else {
      assert fields[..k + 1] == fields;
    }
  }

  /**
   * "Home", then for each field after the first a crumb named by the field
   * whose path joins the fields from the second one up to it.
   */
  function CrumbsOf(fields: seq<string>): (trail: seq<Crumb>)
    requires |fields| >= 1
    ensures |trail| == |fields|
  {
    [Home] + seq(|fields| - 1, k requires 0 <= k < |fields| - 1 => Crumb(fields[k + 1], Join(fields[1..k + 2])))
  }

  /** The trail for a pathname when no crumbs are given. */
  function Trail(pathname: string): seq<Crumb> {
    CrumbsOf(Split(pathname))
  }

  /** One crumb per slash after "Home", each named by the field it stands for, which holds no slash. */
  lemma {:induction false} TrailNames(pathname: string)
    ensures var trail, fields := Trail(pathname), Split(pathname);
            && |trail| == |fields| == Slashes(pathname) + 1
            && trail[0] == Home
            && forall k :: 1 <= k < |trail| ==> trail[k].name == fields[k] && '/' !in trail[k].name
  {
    SplitFields(pathname);
  }

  /** Each crumb's path is its predecessor's path, a slash and its own name. */
  lemma {:induction false} TrailPathsGrow(pathname: string)
    ensures var trail := Trail(pathname);
            forall k :: 1 <= k < |trail| - 1 ==> trail[k + 1].path == trail[k].path + "/" + trail[k + 1].name
  {
    var fields := Split(pathname);
    var trail := CrumbsOf(fields);
    forall k | 1 <= k < |trail| - 1
      ensures trail[k + 1].path == trail[k].path + "/" + trail[k + 1].name
    {
      PathGrows(fields, k);
    }
  }

  /**
   * Each crumb's path, after the first field and a slash, is a prefix of the
   * joined fields, and the last crumb's path is the whole rest of them.
   */
  lemma {:induction false} CrumbPathsInJoin(fields: seq<string>)
    requires |fields| >= 1
    ensures var trail := CrumbsOf(fields);
            && (forall k :: 1 <= k < |trail| ==> fields[0] + "/" + trail[k].path <= Join(fields))
            && (|trail| >= 2 ==> fields[0] + "/" + trail[|trail| - 1].path == Join(fields))
  {
    var trail := CrumbsOf(fields);
    forall k | 1 <= k < |trail|
      ensures fields[0] + "/" + trail[k].path <= Join(fields)
    {
      PathInPathname(fields, k);
    }
    if |trail| >= 2 {
      PathInPathname(fields, |fields| - 1);
    }
  }

  /**
   * Each crumb's path, after the first field and a slash, is a prefix of the
   * pathname, and the last crumb's path is the whole rest of it.
   */
  lemma {:induction false} TrailPathsInPathname(pathname: string)
    ensures var trail, fields := Trail(pathname), Split(pathname);
            && (forall k :: 1 <= k < |trail| ==> fields[0] + "/" + trail[k].path <= pathname)
            && (|trail| >= 2 ==> fields[0] + "/" + trail[|trail| - 1].path == pathname)
  {
    JoinSplit(pathname);
    CrumbPathsInJoin(Split(pathname));
  }

  /** Empty fields give crumbs with empty names: the root page has "Home" and one empty crumb. */
  lemma RootTrail()
    ensures Trail("/") == [Home, Crumb("", "")]
  {
    assert Split("/") == ["", ""];
  }

  /** The crumbs shown above a page: the given ones unchanged, or else the trail of the pathname. */
  method Derive(pathname: string, crumbs: Option<seq<Crumb>>) returns (trail: seq<Crumb>)
    ensures crumbs.Some? ==> trail == crumbs.value
    ensures crumbs.None? ==> trail == Trail(pathname)
  {
    if crumbs.Some? {
      return crumbs.value;
    }
    var temp := Split(pathname);
    ghost var fields := temp;
    temp := temp[1..];
    var mapped := seq(|temp|, index requires 0 <= index < |temp| => Crumb(temp[index], Join(temp[..index + 1])));
    trail := [Home] + mapped;
    forall k | 1 <= k < |trail|
      ensures trail[k] == CrumbsOf(fields)[k]
    {
      assert temp[..k] == fields[1..k + 1];
    }
  }
}
