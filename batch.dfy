/**
 * The loop shape the three batch scripts share: handle each entry of a listing in
 * turn and collect what each one does. A handler never raises (the scripts catch
 * per-entry exceptions inside it), so the run is the concatenation of the handlers'
 * effects, entry by entry.
 */
module Batch {

  /** The effects of handling entries in order. */
  function ForEach<E, T>(entries: seq<E>, handle: E -> seq<T>): seq<T> {
    if entries == [] then []
    else ForEach(entries[..|entries| - 1], handle) + handle(entries[|entries| - 1])
  }

  /** Handling two listings one after the other is handling their concatenation. */
  lemma {:induction false} ForEachAppend<E, T>(a: seq<E>, b: seq<E>, handle: E -> seq<T>)
    ensures ForEach(a + b, handle) == ForEach(a, handle) + ForEach(b, handle)
  {
    if b == [] {
      assert a + b == a;
    } else {
      ForEachAppend(a, b[..|b| - 1], handle);
      assert (a + b)[..|a + b| - 1] == a + b[..|b| - 1];
    }
  }

  /** One more step of the loop: handling the first i + 1 entries is handling the
      first i, then entry i. */
  lemma ForEachSnoc<E, T>(entries: seq<E>, i: nat, handle: E -> seq<T>)
    requires i < |entries|
    ensures ForEach(entries[..i + 1], handle) == ForEach(entries[..i], handle) + handle(entries[i])
  {
    assert entries[..i + 1][..i] == entries[..i];
  }

  /** Each entry's effects appear whole, between those of the entries before it and
      those of the entries after it, whatever those were. */
  lemma ForEachAt<E, T>(entries: seq<E>, k: nat, handle: E -> seq<T>)
    requires k < |entries|
    ensures ForEach(entries, handle)
      == ForEach(entries[..k], handle) + handle(entries[k]) + ForEach(entries[k + 1..], handle)
  {
    var before, after := entries[..k + 1], entries[k + 1..];
    assert entries == before + after;
    ForEachAppend(before, after, handle);
    ForEachSnoc(entries, k, handle);
  }

  /** An effect occurs in the run exactly when it is an effect of some entry. */
  lemma {:induction false} InForEach<E, T>(entries: seq<E>, handle: E -> seq<T>, t: T)
    ensures t in ForEach(entries, handle) <==> exists k :: 0 <= k < |entries| && t in handle(entries[k])
  {
    if entries != [] {
      var init := entries[..|entries| - 1];
      InForEach(init, handle, t);
      if t in ForEach(init, handle) {
        var k :| 0 <= k < |init| && t in handle(init[k]);
        assert entries[k] == init[k];
      }
      if exists k :: 0 <= k < |entries| && t in handle(entries[k]) {
        var k :| 0 <= k < |entries| && t in handle(entries[k]);
        if k < |init| { assert init[k] == entries[k]; }
      }
    }
  }
}
