/** What the duplicate search reads from the tracker's RSS feed. */
module Search {
  import opened Wrappers
  import opened Strings
  import opened Seqs

  /** A parsed feed: for each `<item>` and then each `<entry>` node, in document order,
      the text of its first `<title>` child, or `None` when it has no such child or the
      child has no text. */
  datatype Feed = Feed(items: seq<Option<string>>, entries: seq<Option<string>>)

  /** The outcome of the search request: a connection error or timeout, or a response
      with its status, its body and the body parsed as XML (`None` when the body is not
      well-formed). */
  datatype SearchResponse =
    | RequestFailed
    | Response(status: nat, text: string, parsed: Option<Feed>)

  /** A node contributes a title when its title text exists and is non-empty. */
  predicate HasTitle(node: Option<string>) {
    node.Some? && node.value != ""
  }

  /** The stripped titles of the nodes that have one, in node order. */
  function Titles(nodes: seq<Option<string>>): seq<string> {
    if nodes == [] then []
    else
      var last := nodes[|nodes| - 1];
      Titles(nodes[..|nodes| - 1]) + (if HasTitle(last) then [Strip(last.value)] else [])
  }

  /** The titles of a concatenation are the titles of each part, in turn: all `<item>`
      titles come before all `<entry>` titles. */
  lemma {:induction false} TitlesAppend(a: seq<Option<string>>, b: seq<Option<string>>)
    ensures Titles(a + b) == Titles(a) + Titles(b)
    decreases |b|
  {
    if b == [] {
      assert a + b == a;
    } else {
      var b' := b[..|b| - 1];
      assert (a + b)[..|a + b| - 1] == a + b';
      TitlesAppend(a, b');
    }
  }

  /** The titles of the first `n` nodes are, one for one and in node order, the stripped
      texts of the titled nodes among them. */
  lemma {:induction false} TitlesInOrder(nodes: seq<Option<string>>, n: nat)
    requires n <= |nodes|
    ensures var idx := Where(nodes, n, HasTitle);
      && |Titles(nodes[..n])| == |idx|
      && forall k :: 0 <= k < |idx| ==> Titles(nodes[..n])[k] == Strip(nodes[idx[k]].value)
  {
    if n > 0 {
      TitlesInOrder(nodes, n - 1);
      var last := nodes[n - 1];
      assert nodes[..n][..n - 1] == nodes[..n - 1];
      assert Titles(nodes[..n]) == Titles(nodes[..n - 1]) + (if HasTitle(last) then [Strip(last.value)] else []);
      assert Where(nodes, n, HasTitle) == Where(nodes, n - 1, HasTitle) + (if HasTitle(last) then [n - 1] else []);
    }
  }

  /** The titles are exactly the stripped texts of the titled nodes, one per titled node
      and in node order; so every title comes from a titled node, every titled node
      yields its title, and there are never more titles than nodes. */
  lemma {:induction false} TitlesSpec(nodes: seq<Option<string>>)
    ensures var idx := Where(nodes, |nodes|, HasTitle);
      && |Titles(nodes)| == |idx|
      && forall k :: 0 <= k < |idx| ==> Titles(nodes)[k] == Strip(nodes[idx[k]].value)
    ensures |Titles(nodes)| <= |nodes|
    ensures forall t :: t in Titles(nodes) ==>
      exists i :: 0 <= i < |nodes| && HasTitle(nodes[i]) && t == Strip(nodes[i].value)
    ensures forall i :: 0 <= i < |nodes| && HasTitle(nodes[i]) ==> Strip(nodes[i].value) in Titles(nodes)
  {
    TitlesInOrder(nodes, |nodes|);
    assert nodes[..|nodes|] == nodes;
    var idx := Where(nodes, |nodes|, HasTitle);
    forall t | t in Titles(nodes)
      ensures exists i :: 0 <= i < |nodes| && HasTitle(nodes[i]) && t == Strip(nodes[i].value)
    {
      var k :| 0 <= k < |Titles(nodes)| && Titles(nodes)[k] == t;
      assert HasTitle(nodes[idx[k]]);
    }
    forall i | 0 <= i < |nodes| && HasTitle(nodes[i])
      ensures Strip(nodes[i].value) in Titles(nodes)
    {
      WhereComplete(nodes, |nodes|, HasTitle, i);
      var k :| 0 <= k < |idx| && idx[k] == i;
      assert Titles(nodes)[k] == Strip(nodes[i].value);
    }
  }

  /** Every title is already stripped: stripping it again changes nothing. */
  lemma TitlesStripped(nodes: seq<Option<string>>)
    ensures forall t :: t in Titles(nodes) ==> Strip(t) == t
  {
    TitlesSpec(nodes);
    forall t | t in Titles(nodes) ensures Strip(t) == t {
      var i :| 0 <= i < |nodes| && HasTitle(nodes[i]) && t == Strip(nodes[i].value);
      StripIdempotent(nodes[i].value);
    }
  }
}
