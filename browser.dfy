/** The browser facilities the pages use, reduced to what their behaviour depends on:
    picked files, object-URL handles, multipart form data and how an axios request settles. */
module Browser {
  import opened Json

  /** A `File` the user picked or dropped; only its identity matters. */
  datatype File = File(id: nat)

  /** An object URL made by `URL.createObjectURL`; handles are numbered in creation order. */
  type Handle = nat

  /** One `FormData.append(name, value)`: a file, a string, or a number (sent as its decimal text). */
  datatype FormValue = FileValue(file: File) | TextValue(text: string) | NumberValue(x: real)

  type FormData = seq<(string, FormValue)>

  /** How an axios request settles: `Resolved(res.data)` for a 2xx answer; `Rejected` for a
      network failure (no response data) or a non-2xx status (the response body). */
  datatype HttpOutcome =
    | Resolved(data: Value)
    | Rejected(responseData: Option<Value>, message: string)

  /** The reason a page shows for a rejected request: `err.response?.data?.error || err.message`. */
  function FailureReason(responseData: Option<Value>, message: string): (r: Value)
    ensures responseData.Some? && !Falsy(Get(responseData.value, "error")) ==> r == Get(responseData.value, "error").value
    ensures (responseData.None? || Falsy(Get(responseData.value, "error"))) ==> r == Str(message)
  {
    if responseData.Some? && !Falsy(Get(responseData.value, "error")) then Get(responseData.value, "error").value
    else Str(message)
  }

  /** The handles an effect cleanup revokes for one dependency: the handle if it is not null. */
  function Released(h: Option<Handle>): seq<Handle>
  {
    if h.Some? then [h.value] else []
  }

  /** The first field of `form` with the given name, as `FormData.get` and Flask's `MultiDict.get` read it. */
  function Lookup(form: FormData, name: string): Option<FormValue>
  {
    if form == [] then None
    else if form[0].0 == name then Some(form[0].1)
    else Lookup(form[1..], name)
  }

  /** `Lookup` finds nothing exactly when no field has the name, and otherwise the value of
      the first field that has it. */
  lemma {:induction false} LookupFirst(form: FormData, name: string)
    ensures Lookup(form, name).None? <==> forall i :: 0 <= i < |form| ==> form[i].0 != name
    ensures Lookup(form, name).Some? ==>
      exists i :: 0 <= i < |form| && form[i] == (name, Lookup(form, name).value) &&
                  forall j :: 0 <= j < i ==> form[j].0 != name
  {
    if form != [] && form[0].0 != name {
      LookupFirst(form[1..], name);
      assert forall i :: 0 < i < |form| ==> form[i] == form[1..][i - 1];
      if Lookup(form, name).Some? {
        var k :| 0 <= k < |form[1..]| && form[1..][k] == (name, Lookup(form, name).value) &&
                 forall j :: 0 <= j < k ==> form[1..][j].0 != name;
        assert form[k + 1] == (name, Lookup(form, name).value);
      }
    }
  }

  /** Looking a name up starts at the first field. */
  lemma LookupCons(field: (string, FormValue), rest: FormData, name: string)
    ensures Lookup([field] + rest, name) == if field.0 == name then Some(field.1) else Lookup(rest, name)
  {
    assert ([field] + rest)[1..] == rest;
  }

  /** Looking a name up in a concatenation finds the first part's field when it has one. */
  lemma {:induction false} LookupAppend(a: FormData, b: FormData, name: string)
    ensures Lookup(a + b, name) == if Lookup(a, name).Some? then Lookup(a, name) else Lookup(b, name)
  {
    if a == [] {
      assert a + b == b;
    } else if a[0].0 != name {
      assert (a + b)[0] == a[0];
      assert (a + b)[1..] == a[1..] + b;
      LookupAppend(a[1..], b, name);
    } else {
      assert (a + b)[0] == a[0];
    }
  }

  /** The handles an effect over two dependencies revokes at a commit: nothing when neither
      changed, otherwise both previous handles, including one that is still shown. */
  function PreviewCleanup(p0: Option<Handle>, t0: Option<Handle>, p1: Option<Handle>, t1: Option<Handle>): (r: seq<Handle>)
    ensures p0 == p1 && t0 == t1 ==> r == []
    ensures !(p0 == p1 && t0 == t1) ==> forall h :: h in r <==> Bound(p0, h) || Bound(t0, h)
  {
    if p0 == p1 && t0 == t1 then [] else Released(p0) + Released(t0)
  }

  /** `h` is the handle held in `p`. */
  predicate Bound(p: Option<Handle>, h: Handle)
  {
    p.Some? && p.value == h
  }

  /** No object URL leaks: every handle made so far (those below `next`) is either revoked
      or bound to one of the two previews, and both previews are handles already made. */
  ghost predicate NoLeak(revoked: seq<Handle>, next: Handle, p: Option<Handle>, t: Option<Handle>)
  {
    && (forall h :: h in revoked ==> h < next)
    && (p.Some? ==> p.value < next)
    && (t.Some? ==> t.value < next)
    && (forall h: Handle :: h < next && h !in revoked ==> Bound(p, h) || Bound(t, h))
  }

  /** No handle appears twice in `s`. */
  ghost predicate Distinct(s: seq<Handle>)
  {
    forall i, j :: 0 <= i < j < |s| ==> s[i] != s[j]
  }

  /** Every handle made so far is revoked. */
  ghost predicate AllRevoked(revoked: seq<Handle>, next: Handle)
  {
    forall h: Handle :: h < next ==> h in revoked
  }

  /** A commit that binds the previews to old or freshly made handles, and makes no handle it
      does not bind, keeps `NoLeak` once the cleanup of the previous previews has run. */
  lemma CommitKeepsNoLeak(revoked: seq<Handle>, next: Handle, p0: Option<Handle>, t0: Option<Handle>,
                          next1: Handle, p1: Option<Handle>, t1: Option<Handle>)
    requires NoLeak(revoked, next, p0, t0) && next <= next1
    requires p1.Some? ==> p1 == p0 || p1 == t0 || next <= p1.value < next1
    requires t1.Some? ==> t1 == t0 || t1 == p0 || next <= t1.value < next1
    requires forall h: Handle :: next <= h < next1 ==> Bound(p1, h) || Bound(t1, h)
    ensures NoLeak(revoked + PreviewCleanup(p0, t0, p1, t1), next1, p1, t1)
  {
    var r := revoked + PreviewCleanup(p0, t0, p1, t1);
    forall h: Handle | h < next1 && h !in r
      ensures Bound(p1, h) || Bound(t1, h)
    {
      if h < next {
        assert h !in revoked;
        assert Bound(p0, h) || Bound(t0, h);
      }
    }
  }

  /** The last cleanup at unmount revokes both bound previews, after which nothing is live. */
  lemma UnmountRevokesAll(revoked: seq<Handle>, next: Handle, p: Option<Handle>, t: Option<Handle>)
    requires NoLeak(revoked, next, p, t)
    ensures AllRevoked(revoked + Released(p) + Released(t), next)
  {
    forall h: Handle | h < next
      ensures h in revoked + Released(p) + Released(t)
    {
      if h !in revoked {
        assert Bound(p, h) || Bound(t, h);
        assert h in Released(p) || h in Released(t);
      }
    }
  }
}
