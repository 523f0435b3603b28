/** Automatic rotation. */
module HealthRotation {
  import opened Wrappers
  import opened HealthModel

  predicate SomeInRotation(rows: seq<Server>) {
    exists i | 0 <= i < |rows| :: rows[i].InRotation()
  }

  predicate OneInRotation(rows: seq<Server>) {
    exists i | 0 <= i < |rows| :: rows[i].InRotation() && forall j | 0 <= j < |rows| && rows[j].InRotation() :: j == i
  }

  predicate NoneFailing(rows: seq<Server>) {
    forall i | 0 <= i < |rows| :: !Failing(rows[i])
  }

  lemma {:induction false} LastInRotation(rows: seq<Server>, n: nat) returns (last: nat)
    requires n <= |rows| && exists i | 0 <= i < n :: rows[i].InRotation()
    ensures last < n && rows[last].InRotation()
    ensures forall j | last < j < n :: !rows[j].InRotation()
  {
    if rows[n - 1].InRotation() {
      last := n - 1;
    } else {
      last := LastInRotation(rows, n - 1);
    }
  }

  /** The group never ends up with nothing to send traffic to. */
  lemma {:induction false} TakeOutIsSafe(rows: seq<Server>)
    requires SomeInRotation(rows)
    ensures SomeInRotation(TakeOut(rows))
  {
    if j :| 0 <= j < |rows| && rows[j].InRotation() && !Failing(rows[j]) {
      assert TakeOut(rows)[j].InRotation();
    } else {
      var last := LastInRotation(rows, |rows|);
      assert !HasRelief(rows, last);
      assert TakeOut(rows)[last].InRotation();
    }
  }

  /** A server left in rotation although it is confirmed down is the only one left. */
  lemma {:induction false} TakeOutIsMaximal(rows: seq<Server>, i: nat)
    requires i < |rows| && Failing(TakeOut(rows)[i])
    ensures forall j | 0 <= j < |rows| && TakeOut(rows)[j].InRotation() :: j == i
  {
    assert !HasRelief(rows, i);
    forall j | 0 <= j < |rows| && TakeOut(rows)[j].InRotation() ensures j == i {
      if j != i {
        assert rows[j].InRotation() && !(rows[j].lastStatus != Down || i < j);
        assert Failing(rows[j]) && rows[i].InRotation() && j < i;
        assert HasRelief(rows, j);
      }
    }
  }

  /** With the option on: something stays in rotation if something was. */
  lemma {:induction false} AutoDownIsSafe(rows: seq<Server>)
    ensures SomeInRotation(rows) ==> SomeInRotation(AutoDown(true, rows))
  {
    if SomeInRotation(rows) {
      var i :| 0 <= i < |rows| && rows[i].InRotation();
      assert Restore(rows)[i].InRotation();
      TakeOutIsSafe(Restore(rows));
    }
  }

  /** Afterwards nothing in rotation is confirmed down, or one server alone is in rotation. */
  lemma {:induction false} AutoDownIsMaximal(rows: seq<Server>)
    ensures NoneFailing(AutoDown(true, rows)) || OneInRotation(AutoDown(true, rows))
  {
    var after := AutoDown(true, rows);
    if i :| 0 <= i < |after| && Failing(after[i]) {
      TakeOutIsMaximal(Restore(rows), i);
      assert after[i].InRotation();
    }
  }

  /** With the option on, one pass is safe, maximal and stable, and reports exactly the changes
      it made. */
  lemma {:induction false} AutoDownIsSafeMaximalStable(rows: seq<Server>)
    ensures SomeInRotation(rows) ==> SomeInRotation(AutoDown(true, rows))
    ensures NoneFailing(AutoDown(true, rows)) || OneInRotation(AutoDown(true, rows))
    ensures ConfigChanged(true, rows) <==> AutoDown(true, rows) != rows
    ensures AutoDown(true, AutoDown(true, rows)) == AutoDown(true, rows) && !ConfigChanged(true, AutoDown(true, rows))
  {
    AutoDownIsSafe(rows);
    AutoDownIsMaximal(rows);
    var after := AutoDown(true, rows);
    forall i | 0 <= i < |after| && Failing(after[i]) ensures !HasRelief(after, i) {
      TakeOutIsMaximal(Restore(rows), i);
      assert after[i].InRotation();
    }
    if after != rows {
      var i :| 0 <= i < |rows| && after[i] != rows[i];
      assert after[i].autoDown != rows[i].autoDown;
    }
    assert Restore(after) == after;
    assert TakeOut(after) == after;
  }

  /** With the option on, a server in service that answers again is back in rotation. */
  lemma {:induction false} AnsweringServersReturn(rows: seq<Server>, i: nat)
    requires i < |rows| && rows[i].InService() && rows[i].lastStatus == Up
    ensures AutoDown(true, rows)[i].InRotation()
  {
  }

  /** The first loop takes the flag off exactly the enabled servers that are up. */
  lemma {:induction false} RestoreExactly(rows: seq<Server>, i: nat)
    requires i < |rows|
    ensures Restore(rows)[i] == rows[i].(autoDown := rows[i].autoDown && !(rows[i].enabled && rows[i].lastStatus == Up))
  {
  }

  /** Flags rise only for servers in rotation that are confirmed down, and fall only for enabled ones that are up;
      nothing else of a row changes, and nothing at all of a disabled one. */
  lemma {:induction false} FlagsMoveExactly(rows: seq<Server>, i: nat)
    requires i < |rows|
    ensures var s, t := rows[i], AutoDown(true, rows)[i];
      && t == s.(autoDown := t.autoDown)
      && (!s.autoDown && t.autoDown ==> s.InRotation() && s.lastStatus == Down)
      && (s.autoDown && !t.autoDown <==> s.autoDown && s.enabled && s.lastStatus == Up)
  {
  }

  /** When every server in rotation is confirmed down, and none that is out of it answers, the last one of them in
      list order, and only that one, stays in rotation. */
  lemma {:induction false} LastOneStays(rows: seq<Server>, last: nat)
    requires last < |rows| && rows[last].InRotation() && forall j | last < j < |rows| :: !rows[j].InRotation()
    requires forall j | 0 <= j < |rows| && rows[j].InService() :: rows[j].lastStatus == Down
    ensures forall i | 0 <= i < |rows| :: AutoDown(true, rows)[i].InRotation() <==> i == last
  {
    var restored := Restore(rows);
    forall i | 0 <= i < |rows| ensures AutoDown(true, rows)[i].InRotation() <==> i == last {
      assert restored[i].InRotation() <==> rows[i].InRotation();
      if i < last && rows[i].InRotation() {
        assert restored[last].InRotation();
        assert HasRelief(restored, i);
      }
      if i == last {
        assert !HasRelief(restored, last);
      }
    }
  }

  /** With the option off, no flag survives and no change is reported. */
  lemma {:induction false} AutoDownOff(rows: seq<Server>, i: nat)
    requires i < |rows|
    ensures var t := AutoDown(false, rows)[i]; t == rows[i].(autoDown := rows[i].autoDown && !rows[i].enabled)
    ensures !ConfigChanged(false, rows)
  {
  }
}
