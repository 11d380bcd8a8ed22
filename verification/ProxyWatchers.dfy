/** The protocol run by the proxy store's own transactions. */
module ProxyWatchers {
  import opened ProxyStore
  import opened ProxyTransactions
  import opened ProxyProtocol

  datatype Data = Data(tree: Tree, sync: map<nat, bool>)

  function Ran(h: Content -> nat, d: Data, ops: seq<Op>): Db {
    Run(Db(d.tree, d.sync, 0), h, ops)
  }

  function StoreTxns(h: Content -> nat): Txns<Data, seq<Op>> {
    Txns((d: Data, ops: seq<Op>) => Data(Ran(h, d, ops).tree, Ran(h, d, ops).sync),
         (d: Data, ops: seq<Op>) => Ran(h, d, ops).changes != 0)
  }

  lemma StoreTxnsFaithful(h: Content -> nat)
    ensures Faithful(StoreTxns(h))
  {
    forall d: Data, ops: seq<Op> | !StoreTxns(h).counts(d, ops) ensures StoreTxns(h).commit(d, ops) == d {
      RunCounts(Db(d.tree, d.sync, 0), h, ops);
    }
  }

  /** Every operation of every logged transaction meets its condition where it runs. */
  ghost predicate LogKeeps(h: Content -> nat, d: Data, log: seq<seq<Op>>) {
    log != [] ==>
      var n := |log| - 1;
      var before := Replay(StoreTxns(h), d, log[..n]);
      LogKeeps(h, d, log[..n]) && KeepsThroughout(Db(before.tree, before.sync, 0), h, log[n])
  }

  /** The indexes correspond after every operation of every logged transaction. */
  ghost predicate LogIndexed(h: Content -> nat, d: Data, log: seq<seq<Op>>) {
    if log == [] then Indexed(d.tree)
    else
      var n := |log| - 1;
      var before := Replay(StoreTxns(h), d, log[..n]);
      LogIndexed(h, d, log[..n]) && IndexedThroughout(Db(before.tree, before.sync, 0), h, log[n])
  }

  lemma {:induction false} ReplayIndexedExactly(h: Content -> nat, d: Data, log: seq<seq<Op>>)
    requires Indexed(d.tree)
    ensures LogIndexed(h, d, log) <==> LogKeeps(h, d, log)
    ensures LogKeeps(h, d, log) ==> Indexed(Replay(StoreTxns(h), d, log).tree)
  {
    if log != [] {
      var n := |log| - 1;
      ReplayIndexedExactly(h, d, log[..n]);
      if LogKeeps(h, d, log[..n]) {
        var before := Replay(StoreTxns(h), d, log[..n]);
        RunIndexedExactly(Db(before.tree, before.sync, 0), h, log[n]);
      }
    }
  }

  /** Transactions that keep to one service name per source, and off raw endpoint writes, meet all their conditions. */
  lemma {:induction false} NamedLogKeeps(h: Content -> nat, d: Data, log: seq<seq<Op>>, svcOf: (string, string) -> string)
    requires WellNamed(d.tree, svcOf)
    requires forall i, j :: 0 <= i < |log| && 0 <= j < |log[i]| ==> Named(log[i][j], svcOf)
    ensures LogKeeps(h, d, log) && WellNamed(Replay(StoreTxns(h), d, log).tree, svcOf)
  {
    if log != [] {
      var n := |log| - 1;
      NamedLogKeeps(h, d, log[..n], svcOf);
      var before := Replay(StoreTxns(h), d, log[..n]);
      NamedKeep(Db(before.tree, before.sync, 0), h, log[n], svcOf);
      RunKeepsIndex(Db(before.tree, before.sync, 0), h, log[n], svcOf);
    }
  }

  /** Whatever the interleaving and whatever the transactions, a View that runs its callback sees the outcome of
      the counted transactions up to its revision, never a half-applied one; the endpoint indexes corresponded
      all the way there if and only if every operation of those transactions meets its condition, and then they
      correspond in what the View sees. */
  lemma ViewsSeeWholeTransactions(h: Content -> nat, s: State<Data, seq<Op>>, moves: seq<Move<seq<Op>>>, o: Outcome<Data>)
    requires Initial(s) && Indexed(s.data.tree)
    requires o in Exec(StoreTxns(h), s, moves).outcomes && o.seen.Some?
    ensures var log := Exec(StoreTxns(h), s, moves).log;
            && o.after < o.rev <= |log|
            && o.seen.value == Replay(StoreTxns(h), s.data, log[..o.rev])
            && (LogIndexed(h, s.data, log[..o.rev]) <==> LogKeeps(h, s.data, log[..o.rev]))
            && (LogKeeps(h, s.data, log[..o.rev]) ==> Indexed(o.seen.value.tree))
  {
    StoreTxnsFaithful(h);
    ViewsAreSerial(StoreTxns(h), s, moves, o);
    ReplayIndexedExactly(h, s.data, Exec(StoreTxns(h), s, moves).log[..o.rev]);
  }
}
