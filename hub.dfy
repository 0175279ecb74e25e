/** The downstream broadcast hub: `broadcast(data)` sends to every dashboard
    connection whose `readyState` is OPEN, in the order `wss.clients` iterates,
    and skips the others. */
module Hub {
  import opened Wire

  /** What one viewer receives from one broadcast. */
  function Deliver(v: Viewer, m: OutMsg): seq<Delivery> {
    if v.state == Open then [Delivery(v.id, m)] else []
  }

  /** The sends made by one broadcast of `m`, as the loop over `vs` makes them. */
  function Fanout(vs: seq<Viewer>, m: OutMsg): (r: seq<Delivery>)
    ensures |r| <= |vs|
    ensures forall k :: 0 <= k < |r| ==> r[k].msg == m
    decreases |vs|
  {
    if vs == [] then [] else Fanout(vs[..|vs| - 1], m) + Deliver(vs[|vs| - 1], m)
  }

  /** Reference definition: the ids of the OPEN viewers, read front to back. */
  function OpenIds(vs: seq<Viewer>): seq<nat> {
    if vs == [] then []
    else (if vs[0].state == Open then [vs[0].id] else []) + OpenIds(vs[1..])
  }

  lemma {:induction false} OpenIdsSnoc(vs: seq<Viewer>, v: Viewer)
    ensures OpenIds(vs + [v]) == OpenIds(vs) + (if v.state == Open then [v.id] else [])
  {
    if vs != [] {
      assert (vs + [v])[1..] == vs[1..] + [v];
      OpenIdsSnoc(vs[1..], v);
    }
  }

  /** A broadcast sends exactly once to each OPEN viewer, in iteration order. */
  lemma {:induction false} FanoutFollowsOpenIds(vs: seq<Viewer>, m: OutMsg)
    ensures |Fanout(vs, m)| == |OpenIds(vs)|
    ensures forall k :: 0 <= k < |OpenIds(vs)| ==> Fanout(vs, m)[k] == Delivery(OpenIds(vs)[k], m)
    decreases |vs|
  {
    if vs != [] {
      var ps, v := vs[..|vs| - 1], vs[|vs| - 1];
      assert vs == ps + [v];
      FanoutFollowsOpenIds(ps, m);
      OpenIdsSnoc(ps, v);
    }
  }

  /** An id is among the OPEN ids exactly when some viewer with that id is OPEN. */
  lemma {:induction false} OpenIdsMembership(vs: seq<Viewer>, id: nat)
    ensures id in OpenIds(vs) <==> exists i :: 0 <= i < |vs| && vs[i].id == id && vs[i].state == Open
  {
    if vs != [] {
      OpenIdsMembership(vs[1..], id);
      if id in OpenIds(vs[1..]) {
        var i :| 0 <= i < |vs[1..]| && vs[1..][i].id == id && vs[1..][i].state == Open;
        assert vs[i + 1] == vs[1..][i];
      }
      if exists i :: 0 <= i < |vs| && vs[i].id == id && vs[i].state == Open {
        var i :| 0 <= i < |vs| && vs[i].id == id && vs[i].state == Open;
        if i > 0 {
          assert vs[1..][i - 1] == vs[i];
        }
      }
    }
  }

  /** A viewer receives a broadcast if and only if it is OPEN: nothing goes to a
      CONNECTING, CLOSING or CLOSED connection, and nothing else is sent. */
  lemma FanoutReachesExactlyOpen(vs: seq<Viewer>, m: OutMsg, id: nat)
    ensures Delivery(id, m) in Fanout(vs, m) <==>
              exists i :: 0 <= i < |vs| && vs[i].id == id && vs[i].state == Open
  {
    FanoutFollowsOpenIds(vs, m);
    OpenIdsMembership(vs, id);
    var f, o := Fanout(vs, m), OpenIds(vs);
    if Delivery(id, m) in f {
      var k :| 0 <= k < |f| && f[k] == Delivery(id, m);
      assert o[k] == id;
    }
    if id in o {
      var k :| 0 <= k < |o| && o[k] == id;
      assert f[k] == Delivery(id, m);
    }
  }

  /** The sends made by broadcasting each of `ms` in turn to the same viewers. */
  function FanoutAll(vs: seq<Viewer>, ms: seq<OutMsg>): seq<Delivery>
    decreases |ms|
  {
    if ms == [] then [] else FanoutAll(vs, ms[..|ms| - 1]) + Fanout(vs, ms[|ms| - 1])
  }

  lemma FanoutAllSnoc(vs: seq<Viewer>, ms: seq<OutMsg>, m: OutMsg)
    ensures FanoutAll(vs, ms + [m]) == FanoutAll(vs, ms) + Fanout(vs, m)
  {
    assert (ms + [m])[..|ms|] == ms;
  }

  lemma {:induction false} FanoutAllAppend(vs: seq<Viewer>, a: seq<OutMsg>, b: seq<OutMsg>)
    ensures FanoutAll(vs, a + b) == FanoutAll(vs, a) + FanoutAll(vs, b)
    decreases |b|
  {
    if b == [] {
      assert a + b == a;
    } else {
      var bs, m := b[..|b| - 1], b[|b| - 1];
      assert a + b == (a + bs) + [m];
      assert b == bs + [m];
      FanoutAllAppend(vs, a, bs);
      FanoutAllSnoc(vs, a + bs, m);
      FanoutAllSnoc(vs, bs, m);
    }
  }

  /** `wss.clients` after the ws library drops the connection `id` on its close. */
  function Without(vs: seq<Viewer>, id: nat): (r: seq<Viewer>)
    ensures |r| <= |vs|
    ensures forall k :: 0 <= k < |r| ==> r[k].id != id
  {
    if vs == [] then []
    else (if vs[0].id == id then [] else [vs[0]]) + Without(vs[1..], id)
  }

  /** A connection remains after the close of `id` exactly when it was there and
      has another id. */
  lemma {:induction false} WithoutMembership(vs: seq<Viewer>, id: nat)
    ensures forall v :: v in Without(vs, id) <==> v in vs && v.id != id
  {
    if vs != [] {
      WithoutMembership(vs[1..], id);
      assert vs == [vs[0]] + vs[1..];
    }
  }

  /** With distinct ids, closing the connection at position k removes exactly
      that entry and keeps the others in their order. */
  lemma {:induction false} WithoutRemovesOne(vs: seq<Viewer>, id: nat, k: nat)
    requires k < |vs| && vs[k].id == id
    requires forall j :: 0 <= j < |vs| && j != k ==> vs[j].id != id
    ensures Without(vs, id) == vs[..k] + vs[k + 1..]
  {
    if k == 0 {
      WithoutRemovesHead(vs, id);
    } else {
      var rest := vs[1..];
      assert forall j :: 0 <= j < |rest| && j != k - 1 ==> rest[j] == vs[j + 1];
      WithoutRemovesOne(rest, id, k - 1);
      WithoutKeepsHead(vs, id, rest[..k - 1] + rest[k..]);
      assert rest[..k - 1] + rest[k..] == vs[1..k] + vs[k + 1..];
      assert vs[..k] == [vs[0]] + vs[1..k];
    }
  }

  lemma WithoutRemovesHead(vs: seq<Viewer>, id: nat)
    requires |vs| > 0 && vs[0].id == id
    requires forall j :: 0 < j < |vs| ==> vs[j].id != id
    ensures Without(vs, id) == vs[1..]
  {
    var rest := vs[1..];
    assert forall j :: 0 <= j < |rest| ==> rest[j] == vs[j + 1];
    WithoutAbsent(rest, id);
  }

  lemma WithoutKeepsHead(vs: seq<Viewer>, id: nat, tail: seq<Viewer>)
    requires |vs| > 0 && vs[0].id != id && Without(vs[1..], id) == tail
    ensures Without(vs, id) == [vs[0]] + tail
  {
  }

  /** Closing an id no connection has leaves the list unchanged. */
  lemma {:induction false} WithoutAbsent(vs: seq<Viewer>, id: nat)
    requires forall j :: 0 <= j < |vs| ==> vs[j].id != id
    ensures Without(vs, id) == vs
  {
    if vs != [] {
      WithoutAbsent(vs[1..], id);
      assert vs == [vs[0]] + vs[1..];
    }
  }

  /** After a close, broadcasts reach the remaining OPEN connections in the same
      order as before: the OPEN ids are those of the original list with the
      closed entry's id taken out (compare OpenIdsSplit). */
  lemma {:induction false} OpenIdsWithout(vs: seq<Viewer>, id: nat, k: nat)
    requires k < |vs| && vs[k].id == id
    requires forall j :: 0 <= j < |vs| && j != k ==> vs[j].id != id
    ensures OpenIds(Without(vs, id)) == OpenIds(vs[..k]) + OpenIds(vs[k + 1..])
  {
    WithoutRemovesOne(vs, id, k);
    OpenIdsAppend(vs[..k], vs[k + 1..]);
  }

  /** The OPEN ids around position k. */
  lemma {:induction false} OpenIdsSplit(vs: seq<Viewer>, k: nat)
    requires k < |vs|
    ensures OpenIds(vs) == OpenIds(vs[..k]) + (if vs[k].state == Open then [vs[k].id] else []) + OpenIds(vs[k + 1..])
  {
    var pre, v, post := vs[..k], vs[k], vs[k + 1..];
    assert vs == pre + ([v] + post);
    OpenIdsAppend(pre, [v] + post);
    OpenIdsSingle(v);
    OpenIdsAppend([v], post);
  }

  lemma OpenIdsSingle(v: Viewer)
    ensures OpenIds([v]) == if v.state == Open then [v.id] else []
  {
    assert [v][1..] == [];
  }

  lemma {:induction false} OpenIdsAppend(a: seq<Viewer>, b: seq<Viewer>)
    ensures OpenIds(a + b) == OpenIds(a) + OpenIds(b)
  {
    if a == [] {
      assert a + b == b;
    } else {
      assert (a + b)[0] == a[0];
      assert (a + b)[1..] == a[1..] + b;
      OpenIdsAppend(a[1..], b);
      assert OpenIds(a + b) == (if a[0].state == Open then [a[0].id] else []) + OpenIds(a[1..] + b);
    }
  }
}
