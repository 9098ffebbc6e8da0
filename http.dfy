/** The outbound request a handler hands to the transport, and the
    ordered, unencoded query list that `URLSearchParams` keeps. */
module Http {
  import opened Wrappers
  import opened JsonValues

  datatype HttpMethod = GET | POST | PATCH | DELETE

  /** One query parameter, name and value, before percent-encoding. */
  type Param = (string, string)

  /** A People API request: method, path relative to the API's base URL,
      query parameters in order, and the JSON body if one is sent. */
  datatype Request = Request(verb: HttpMethod, path: string, query: seq<Param>, body: Option<map<string, Json>>)

  /** Whether some parameter carries the name. */
  predicate HasParam(q: seq<Param>, name: string) {
    exists i :: 0 <= i < |q| && q[i].0 == name
  }

  /** `URLSearchParams.get`: the value of the first parameter of that name. */
  function Lookup(q: seq<Param>, name: string): (r: Option<string>)
    ensures r.Some? <==> HasParam(q, name)
    decreases |q|
  {
    if q == [] then None
    else if q[0].0 == name then Some(q[0].1)
    else
      assert forall i :: 1 <= i < |q| ==> q[i] == q[1..][i - 1];
      Lookup(q[1..], name)
  }

  /** No two parameters carry the same name. */
  predicate DistinctNames(q: seq<Param>) {
    forall i, j :: 0 <= i < j < |q| ==> q[i].0 != q[j].0
  }

  /** The parameters whose name differs from `name`, in order. */
  function Without(q: seq<Param>, name: string): (r: seq<Param>)
    ensures !HasParam(r, name)
    ensures forall p :: p in r ==> p in q
    ensures forall p :: p in q && p.0 != name ==> p in r
    decreases |q|
  {
    if q == [] then []
    else if q[0].0 == name then Without(q[1..], name)
    else [q[0]] + Without(q[1..], name)
  }

  /** `URLSearchParams.set(name, value)`: the first parameter of that name
      takes the value and the later ones are removed; with none, the
      parameter is appended. */
  function SetParam(q: seq<Param>, name: string, value: string): seq<Param>
    decreases |q|
  {
    if q == [] then [(name, value)]
    else if q[0].0 == name then [(name, value)] + Without(q[1..], name)
    else [q[0]] + SetParam(q[1..], name, value)
  }

  /** Setting a name that is not there yet appends it at the end. */
  lemma {:induction false} SetParamAppends(q: seq<Param>, name: string, value: string)
    requires !HasParam(q, name)
    ensures SetParam(q, name, value) == q + [(name, value)]
    decreases |q|
  {
    if q != [] {
      assert q[0].0 != name;
      assert !HasParam(q[1..], name) by {
        forall i | 0 <= i < |q[1..]| ensures q[1..][i].0 != name {
          assert q[1..][i] == q[i + 1];
        }
      }
      SetParamAppends(q[1..], name, value);
      assert [q[0]] + q[1..] == q;
    }
  }

  /** After `set`, `get` returns the value just set. */
  lemma {:induction false} SetParamGet(q: seq<Param>, name: string, value: string)
    ensures Lookup(SetParam(q, name, value), name) == Some(value)
    decreases |q|
  {
    if q != [] && q[0].0 != name {
      SetParamGet(q[1..], name, value);
    }
  }

  /** Removing one name leaves every other name reading back as before. */
  lemma {:induction false} WithoutKeepsOthers(q: seq<Param>, name: string, other: string)
    requires other != name
    ensures Lookup(Without(q, name), other) == Lookup(q, other)
    decreases |q|
  {
    if q != [] {
      WithoutKeepsOthers(q[1..], name, other);
    }
  }

  /** `set` of one name leaves every other name reading back as before. */
  lemma {:induction false} SetParamKeepsOthers(q: seq<Param>, name: string, value: string, other: string)
    requires other != name
    ensures Lookup(SetParam(q, name, value), other) == Lookup(q, other)
    decreases |q|
  {
    if q != [] {
      if q[0].0 == name {
        WithoutKeepsOthers(q[1..], name, other);
      } else {
        SetParamKeepsOthers(q[1..], name, value, other);
      }
    }
  }

  /** A list with distinct names keeps them distinct under `set`. */
  lemma {:induction false} SetParamDistinct(q: seq<Param>, name: string, value: string)
    requires DistinctNames(q)
    ensures DistinctNames(SetParam(q, name, value))
    ensures forall p :: p in SetParam(q, name, value) ==> p == (name, value) || p in q
    decreases |q|
  {
    if q == [] {
    } else if q[0].0 == name {
      var w := Without(q[1..], name);
      assert SetParam(q, name, value) == [(name, value)] + w;
      assert forall p :: p in w ==> p in q[1..];
      assert DistinctNames(w) by { WithoutDistinct(q[1..], name); }
    } else {
      var r := SetParam(q[1..], name, value);
      assert DistinctNames(q[1..]) by {
        forall i, j | 0 <= i < j < |q[1..]| ensures q[1..][i].0 != q[1..][j].0 {
          assert q[1..][i] == q[i + 1] && q[1..][j] == q[j + 1];
        }
      }
      SetParamDistinct(q[1..], name, value);
      assert forall p :: p in q[1..] ==> p.0 != q[0].0;
      assert SetParam(q, name, value) == [q[0]] + r;
      forall i, j | 0 <= i < j < |[q[0]] + r| ensures ([q[0]] + r)[i].0 != ([q[0]] + r)[j].0 {
        if i == 0 {
          assert ([q[0]] + r)[j] == r[j - 1];
          assert r[j - 1] in r;
        } else {
          assert ([q[0]] + r)[i] == r[i - 1] && ([q[0]] + r)[j] == r[j - 1];
        }
      }
    }
  }

  lemma {:induction false} WithoutDistinct(q: seq<Param>, name: string)
    requires DistinctNames(q)
    ensures DistinctNames(Without(q, name))
    decreases |q|
  {
    if q != [] {
      assert DistinctNames(q[1..]) by {
        forall i, j | 0 <= i < j < |q[1..]| ensures q[1..][i].0 != q[1..][j].0 {
          assert q[1..][i] == q[i + 1] && q[1..][j] == q[j + 1];
        }
      }
      WithoutDistinct(q[1..], name);
      var w := Without(q[1..], name);
      assert forall p :: p in w ==> p in q[1..];
      assert forall p :: p in q[1..] ==> p.0 != q[0].0;
      if q[0].0 != name {
        forall i, j | 0 <= i < j < |[q[0]] + w| ensures ([q[0]] + w)[i].0 != ([q[0]] + w)[j].0 {
          if i == 0 {
            assert ([q[0]] + w)[j] == w[j - 1];
            assert w[j - 1] in w;
          } else {
            assert ([q[0]] + w)[i] == w[i - 1] && ([q[0]] + w)[j] == w[j - 1];
          }
        }
      }
    }
  }

  /** A query string is read left to right: a name first found in the
      leading part is answered there, otherwise in the rest. */
  lemma {:induction false} LookupAppend(a: seq<Param>, b: seq<Param>, name: string)
    ensures Lookup(a + b, name) == if HasParam(a, name) then Lookup(a, name) else Lookup(b, name)
    decreases |a|
  {
    if a != [] {
      assert (a + b)[0] == a[0] && (a + b)[1..] == a[1..] + b;
      LookupAppend(a[1..], b, name);
      if a[0].0 != name {
        assert HasParam(a, name) == HasParam(a[1..], name) by {
          if HasParam(a, name) {
            var i :| 0 <= i < |a| && a[i].0 == name;
            assert a[1..][i - 1] == a[i];
          }
          if HasParam(a[1..], name) {
            var i :| 0 <= i < |a[1..]| && a[1..][i].0 == name;
            assert a[i + 1] == a[1..][i];
          }
        }
      }
    } else {
      assert a + b == b;
    }
  }

  /** The mutable parameter list a handler fills in with `set`. */
  class SearchParams {
    var entries: seq<Param>

    constructor ()
      ensures entries == []
    {
      entries := [];
    }

    method Set(name: string, value: string)
      modifies this
      ensures entries == SetParam(old(entries), name, value)
    {
      entries := SetParam(entries, name, value);
    }
  }
}
