/** The final layout as a sequence of blocks: what joining chains through aux does to it. */
module Layout {
  import opened Cfg
  import opened Traces

  /** The chains as trace construction left them; mark[b] is one more than the trace of b. */
  ghost predicate Marked(mark: seq<nat>, chains: seq<seq<int>>) {
    && (forall k :: 0 <= k < |chains| ==> MarkedChain(mark, chains[k], k))
    && (forall b :: 0 <= b < |mark| && mark[b] > 0 ==> mark[b] <= |chains| && b in chains[mark[b]-1])
  }

  ghost predicate MarkedChain(mark: seq<nat>, c: seq<int>, k: int) {
    && |c| > 0 && Distinct(c)
    && (forall i :: 0 <= i < |c| ==> 0 <= c[i] < |mark| && mark[c[i]] == k + 1)
  }

  /** The blocks of part are exactly those of the traces in ks, plus copies if it is the layout itself. */
  ghost predicate Holds(part: seq<int>, mark: seq<nat>, ks: set<int>, copies: int) {
    forall b :: b in part <==> (0 <= b < |mark| && mark[b] > 0 && mark[b] - 1 in ks) || |mark| <= b < copies
  }

  /** part is laid out: linked without repetition, ended by NIL. */
  ghost predicate Chained(aux: seq<int>, part: seq<int>) {
    |part| > 0 && Linked(aux, part) && Distinct(part) && aux[part[|part|-1]] == NIL
  }

  /** Joining two parts that share no trace. */
  lemma Join(aux: seq<int>, a: seq<int>, b: seq<int>, mark: seq<nat>, ks: set<int>, ls: set<int>, copies: int)
    requires Chained(aux, a) && Chained(aux, b)
    requires Holds(a, mark, ks, copies) && Holds(b, mark, ls, |mark|) && ks !! ls
    ensures Chained(aux[a[|a|-1] := b[0]], a + b)
    ensures Holds(a + b, mark, ks + ls, copies)
  {
    var x := a[|a|-1];
    forall i, j | 0 <= i < |a| && 0 <= j < |b| ensures a[i] != b[j] {
      assert a[i] in a && b[j] in b;
    }
    LinkedUpdate(aux, a, x, b[0]);
    LinkedUpdate(aux, b, x, b[0]);
    LinkedConcat(aux[x := b[0]], a, b);
  }

  /** The same with the roles of the copies exchanged: a chain is put before part b. */
  lemma JoinBefore(aux: seq<int>, a: seq<int>, b: seq<int>, mark: seq<nat>, ks: set<int>, ls: set<int>)
    requires Chained(aux, a) && Chained(aux, b)
    requires Holds(a, mark, ks, |mark|) && Holds(b, mark, ls, |mark|) && ks !! ls
    ensures Chained(aux[a[|a|-1] := b[0]], a + b)
    ensures Holds(a + b, mark, ks + ls, |mark|)
  {
    Join(aux, a, b, mark, ks, ls, |mark|);
  }

  /** A new block at the end of the layout. */
  lemma AppendCopy(aux: seq<int>, a: seq<int>, mark: seq<nat>, ks: set<int>)
    requires Chained(aux, a) && Holds(a, mark, ks, |aux|) && |aux| >= |mark|
    ensures Chained((aux + [aux[a[|a|-1]]])[a[|a|-1] := |aux|], a + [|aux|])
    ensures Holds(a + [|aux|], mark, ks, |aux| + 1)
  {
    var x := a[|a|-1];
    var grown := aux + [aux[x]];
    LinkedUpdate(grown, a, x, |aux|);
    LinkedConcat(grown[x := |aux|], a, [|aux|]);
  }

  lemma ChainHolds(mark: seq<nat>, chains: seq<seq<int>>, k: nat)
    requires Marked(mark, chains) && k < |chains|
    ensures Holds(chains[k], mark, {k}, |mark|)
  {
    assert MarkedChain(mark, chains[k], k);
  }

  /** Every trace is linked; one that is not connected yet still ends in NIL. */
  ghost predicate TracesLinked(aux: seq<int>, traces: seq<Trace>, chains: seq<seq<int>>, connected: seq<bool>) {
    && |traces| == |chains| == |connected|
    && (forall k :: 0 <= k < |chains| ==> TraceLinked(aux, traces[k], chains[k], connected[k]))
  }

  ghost predicate TraceLinked(aux: seq<int>, t: Trace, c: seq<int>, connected: bool) {
    && |c| > 0 && t.first == c[0] && Linked(aux, c)
    && (!connected ==> t.last == c[|c|-1] && aux[t.last] == NIL)
  }

  ghost predicate EndsOk(startOf: seq<int>, endOf: seq<int>, chains: seq<seq<int>>) {
    && (forall b :: 0 <= b < |startOf| ==>
          -1 <= startOf[b] < |chains| && (startOf[b] >= 0 ==> |chains[startOf[b]]| > 0 && chains[startOf[b]][0] == b))
    && (forall b :: 0 <= b < |endOf| ==>
          -1 <= endOf[b] < |chains| &&
          (endOf[b] >= 0 ==> |chains[endOf[b]]| > 0 && chains[endOf[b]][|chains[endOf[b]]|-1] == b))
  }

  lemma TraceRelinked(aux: seq<int>, t: Trace, c: seq<int>, connected: bool, mark: seq<nat>, k: int, x: int, v: int)
    requires MarkedChain(mark, c, k) && TraceLinked(aux, t, c, connected)
    requires |mark| <= |aux| && 0 <= x < |aux|
    requires x < |mark| && mark[x] == k + 1 ==> connected && c[|c|-1] == x
    ensures TraceLinked(aux[x := v], t, c, connected)
  {
    assert forall i :: 0 <= i < |c| ==> mark[c[i]] == k + 1;
    LinkedUpdate(aux, c, x, v);
  }

  /** A link set at the end of a connected chain, or at a copy, disturbs no chain. */
  lemma TracesRelinked(aux: seq<int>, traces: seq<Trace>, chains: seq<seq<int>>, connected: seq<bool>,
                       mark: seq<nat>, x: int, v: int)
    requires Marked(mark, chains) && TracesLinked(aux, traces, chains, connected)
    requires |mark| <= |aux| && 0 <= x < |aux|
    requires x < |mark| ==> 0 < mark[x] <= |chains| && connected[mark[x]-1]
    requires x < |mark| ==> |chains[mark[x]-1]| > 0 && chains[mark[x]-1][|chains[mark[x]-1]|-1] == x
    ensures TracesLinked(aux[x := v], traces, chains, connected)
  {
    hide TraceLinked, MarkedChain;
    forall k | 0 <= k < |chains|
      ensures TraceLinked(aux[x := v], traces[k], chains[k], connected[k])
    {
      TraceRelinked(aux, traces[k], chains[k], connected[k], mark, k, x, v);
    }
  }
}
