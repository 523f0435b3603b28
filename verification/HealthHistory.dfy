/** What a server's history says: an automaton that accepts exactly the histories the
    planner can write, and the pairing and spacing facts every accepted history has. */
module HealthHistory {
  import opened Wrappers
  import opened HealthModel

  /** The announced state one entry leads to; None where the entry cannot occur. */
  function Advance(p: Announced, e: Entry): Option<Announced> {
    match e
    case Maintained => Some(Never)
    case SeenUp => if p == Never then Some(SaidUp) else None
    case Note(_, WentDown, Sent) => if p == SaidUp || p == ByHost then Some(SaidDown) else None
    case Note(_, WentDown, Grouped) => if p == SaidUp then Some(ByHost) else None
    case Note(_, WentDown, Held) => if p == SaidUp || p == ByHost then Some(p) else None
    case Note(_, Recovered, Sent) => if p == SaidDown || p == ByHost then Some(SaidUp) else None
    case Note(_, Recovered, Grouped) => if p == ByHost then Some(SaidUp) else None
    case Note(_, Recovered, Held) => if p == SaidUp then Some(SaidUp) else None
  }

  /** The announced state a whole history leads to. */
  function Replay(log: seq<Entry>): Option<Announced> {
    if log == [] then Some(Never)
    else
      var p := Replay(log[..|log| - 1]);
      if p.None? then None else Advance(p.value, log[|log| - 1])
  }

  lemma {:induction false} ReplayPrefix(log: seq<Entry>, n: nat)
    requires Replay(log).Some? && n <= |log|
    ensures Replay(log[..n]).Some?
    ensures n < |log| ==> Replay(log[..n + 1]) == Advance(Replay(log[..n]).value, log[n])
    decreases |log| - n
  {
    if n < |log| {
      ReplayPrefix(log, n + 1);
      assert log[..n + 1][..n] == log[..n];
    } else {
      assert log[..n] == log;
    }
  }

  lemma {:induction false} ReplayAppend(log: seq<Entry>, e: Entry)
    requires Replay(log).Some?
    ensures Replay(log + [e]) == Advance(Replay(log).value, e)
  {
    assert (log + [e])[..|log|] == log;
  }

  // ---------------------------------------------------------------------------
  // Pairing, stated on positions of the history
  // ---------------------------------------------------------------------------

  /** Nothing between the two positions ends an announced outage. */
  predicate Unbroken(log: seq<Entry>, i: nat, j: nat)
    requires i <= j <= |log|
  {
    forall k | i < k < j :: !log[k].Closes() && log[k] != Maintained
  }

  /** Every recovery that goes out closes a drop that went out, with no other recovery and
      no maintenance in between. */
  predicate RecoveriesClose(log: seq<Entry>) {
    forall j | 0 <= j < |log| && log[j].Closes() ::
      exists i | 0 <= i < j :: log[i].Opens() && Unbroken(log, i, j)
  }

  /** Between two sent drops there is a recovery that went out, or maintenance. */
  predicate DropsSeparated(log: seq<Entry>) {
    forall i, j | 0 <= i < j < |log| && log[i].IsNote(WentDown, Sent) && log[j].IsNote(WentDown, Sent) ::
      !Unbroken(log, i, j)
  }

  /** Whatever is recorded comes after a sighting of the server up, with no maintenance since. */
  predicate SeenUpFirst(log: seq<Entry>) {
    forall j | 0 <= j < |log| && log[j].Note? ::
      exists i | 0 <= i < j :: log[i] == SeenUp && (forall k | i < k < j :: log[k] != Maintained)
  }

  lemma {:induction false} OpenedBefore(log: seq<Entry>)
    requires Replay(log) == Some(SaidDown) || Replay(log) == Some(ByHost)
    ensures exists i | 0 <= i < |log| :: log[i].Opens() && Unbroken(log, i, |log|)
  {
    var n := |log| - 1;
    ReplayPrefix(log, n);
    if log[n].Opens() {
      assert Unbroken(log, n, |log|);
    } else {
      OpenedBefore(log[..n]);
      var i :| 0 <= i < n && log[..n][i].Opens() && Unbroken(log[..n], i, n);
      assert Unbroken(log, i, |log|) by {
        forall k | i < k < |log| ensures !log[k].Closes() && log[k] != Maintained {
          if k < n { assert log[..n][k] == log[k]; }
        }
      }
    }
  }

  lemma {:induction false} SightedBefore(log: seq<Entry>)
    requires Replay(log).Some? && Replay(log) != Some(Never)
    ensures exists i | 0 <= i < |log| :: log[i] == SeenUp && (forall k | i < k < |log| :: log[k] != Maintained)
  {
    var n := |log| - 1;
    ReplayPrefix(log, n);
    if log[n] != SeenUp {
      SightedBefore(log[..n]);
      var i :| 0 <= i < n && log[..n][i] == SeenUp && (forall k | i < k < n :: log[..n][k] != Maintained);
      forall k | i < k < |log| ensures log[k] != Maintained {
        if k < n { assert log[..n][k] == log[k]; }
      }
    }
  }

  /** Once a drop was sent, the announced state stays "down" until something closes it. */
  lemma {:induction false} StaysDown(log: seq<Entry>, i: nat, j: nat)
    requires Replay(log).Some? && i < j <= |log|
    requires log[i].IsNote(WentDown, Sent) && Unbroken(log, i, j)
    ensures Replay(log[..j]) == Some(SaidDown)
  {
    ReplayPrefix(log, j - 1);
    ReplayPrefix(log, j);
    if i < j - 1 { StaysDown(log, i, j - 1); }
  }

  lemma {:induction false} RecoveryHasDrop(log: seq<Entry>, j: nat)
    requires Replay(log).Some? && j < |log| && log[j].Closes()
    ensures exists i | 0 <= i < j :: log[i].Opens() && Unbroken(log, i, j)
  {
    ReplayPrefix(log, j);
    ReplayPrefix(log, j + 1);
    OpenedBefore(log[..j]);
    var i :| 0 <= i < j && log[..j][i].Opens() && Unbroken(log[..j], i, j);
    assert log[i].Opens() && Unbroken(log, i, j) by {
      forall k | i < k < j ensures !log[k].Closes() && log[k] != Maintained { assert log[..j][k] == log[k]; }
    }
  }

  lemma {:induction false} NoteHasSighting(log: seq<Entry>, j: nat)
    requires Replay(log).Some? && j < |log| && log[j].Note?
    ensures exists i | 0 <= i < j :: log[i] == SeenUp && (forall k | i < k < j :: log[k] != Maintained)
  {
    ReplayPrefix(log, j);
    ReplayPrefix(log, j + 1);
    SightedBefore(log[..j]);
    var i :| 0 <= i < j && log[..j][i] == SeenUp && (forall k | i < k < j :: log[..j][k] != Maintained);
    forall k | i < k < j ensures log[k] != Maintained { assert log[..j][k] == log[k]; }
  }

  lemma {:induction false} SecondDropIsSeparate(log: seq<Entry>, i: nat, j: nat)
    requires Replay(log).Some? && i < j < |log|
    requires log[i].IsNote(WentDown, Sent) && log[j].IsNote(WentDown, Sent)
    ensures !Unbroken(log, i, j)
  {
    ReplayPrefix(log, j);
    ReplayPrefix(log, j + 1);
    if Unbroken(log, i, j) { StaysDown(log, i, j); }
  }

  lemma {:induction false} HistoryPairsUp(log: seq<Entry>)
    requires Replay(log).Some?
    ensures RecoveriesClose(log) && DropsSeparated(log) && SeenUpFirst(log)
  {
    forall j | 0 <= j < |log| && log[j].Closes()
      ensures exists i | 0 <= i < j :: log[i].Opens() && Unbroken(log, i, j)
    {
      RecoveryHasDrop(log, j);
    }
    forall i, j | 0 <= i < j < |log| && log[i].IsNote(WentDown, Sent) && log[j].IsNote(WentDown, Sent)
      ensures !Unbroken(log, i, j)
    {
      SecondDropIsSeparate(log, i, j);
    }
    forall j | 0 <= j < |log| && log[j].Note?
      ensures exists i | 0 <= i < j :: log[i] == SeenUp && (forall k | i < k < j :: log[k] != Maintained)
    {
      NoteHasSighting(log, j);
    }
  }

  // ---------------------------------------------------------------------------
  // Spacing of the sent drops
  // ---------------------------------------------------------------------------

  /** The times of the sent down alerts, oldest first. */
  function SentDowns(log: seq<Entry>): seq<int> {
    if log == [] then []
    else
      var e := log[|log| - 1];
      SentDowns(log[..|log| - 1]) + if e.IsNote(WentDown, Sent) then [e.at] else []
  }

  lemma {:induction false} SentDownsAppend(log: seq<Entry>, e: Entry)
    ensures SentDowns(log + [e]) == SentDowns(log) + if e.IsNote(WentDown, Sent) then [e.at] else []
  {
    assert (log + [e])[..|log|] == log;
  }
}
