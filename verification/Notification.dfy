/** Notification suppression with event indices, section 2.7.10 of VIRTIO 1.2. */
module Notification {
  import opened Arith
  import opened RingFlow

  /** uint16_t subtraction. */
  function Sub16(a: nat, b: nat): (r: nat) { (a - b) % 0x1_0000 }

  /** The driver must notify: the device's event index was passed since the last notification. */
  predicate VringNeedEvent(event: nat, newIdx: nat, oldIdx: nat) {
    Sub16(Sub16(newIdx, event), 1) < Sub16(newIdx, oldIdx)
  }

  /** One of the submissions number from, …, to - 1 has this 16-bit index. */
  ghost predicate InWindow(event: nat, from: nat, to: nat) { exists n: nat :: from <= n < to && Index16(n) == event }

  lemma SubIndex(a: nat, b: nat)
    ensures Sub16(Index16(a), Index16(b)) == (a - b) % 0x1_0000
  {
  }

  lemma SubIndexTwice(a: nat, event: nat)
    ensures Sub16(Sub16(Index16(a), event), 1) == (a - event - 1) % 0x1_0000
  {
  }

  /** Exactly one of the 65536 numbers below `to` has a given index: the one `back` before the last. */
  lemma BackFrom(event: nat, to: nat, n: nat)
    requires event < 0x1_0000 && n < to <= n + 0x1_0000
    ensures Index16(n) == event <==> to - 1 - n == (to - event - 1) % 0x1_0000
  {
    var x := to - event - 1;
    if Index16(n) == event {
      DivModUnique(x, 0x1_0000, n / 0x1_0000, to - 1 - n);
    } else if to - 1 - n == x % 0x1_0000 {
      DivModUnique(n, 0x1_0000, x / 0x1_0000, event);
    }
  }

  lemma WindowHasEvent(event: nat, to: nat, d: nat, back: nat)
    requires event < 0x1_0000 && d <= to && d <= 0x1_0000 && back == (to - event - 1) % 0x1_0000
    ensures back < d <==> InWindow(event, to - d, to)
  {
    if back < d {
      BackFrom(event, to, to - 1 - back);
    }
    forall n: nat | to - d <= n < to && Index16(n) == event ensures back < d {
      BackFrom(event, to, n);
    }
  }

  /**
  Between two counts the answer is yes exactly when one of the last (distance mod 65536) submissions
  has the requested index: below 65536 submissions, exactly when any of them has.
  */
  lemma NeedEventIsWindow(event: nat, from: nat, to: nat)
    requires event < 0x1_0000 && from <= to
    ensures VringNeedEvent(event, Index16(to), Index16(from)) <==> InWindow(event, to - (to - from) % 0x1_0000, to)
    ensures to - from < 0x1_0000 ==>
      (VringNeedEvent(event, Index16(to), Index16(from)) <==> InWindow(event, from, to))
  {
    NeedEventIs(event, from, to, (to - from) % 0x1_0000);
  }

  lemma NeedEventIs(event: nat, from: nat, to: nat, d: nat)
    requires event < 0x1_0000 && from <= to && d == (to - from) % 0x1_0000
    ensures VringNeedEvent(event, Index16(to), Index16(from)) <==> InWindow(event, to - d, to)
  {
    SubIndex(to, from);
    SubIndexTwice(to, event);
    WindowHasEvent(event, to, d, (to - event - 1) % 0x1_0000);
  }

  /** A kick's answer for the submissions number from, …, to - 1: exact for any number, and right below 65536. */
  ghost predicate AnswersWindow(event: nat, from: nat, to: nat, notify: bool) {
    && from <= to && (notify <==> InWindow(event, to - (to - from) % 0x1_0000, to))
    && (to - from < 0x1_0000 ==> (notify <==> InWindow(event, from, to)))
  }

  lemma NeedEventAnswers(event: nat, from: nat, to: nat)
    requires event < 0x1_0000 && from <= to
    ensures AnswersWindow(event, from, to, VringNeedEvent(event, Index16(to), Index16(from)))
  {
    NeedEventIsWindow(event, from, to);
  }

  /** What happens between two kicks: some submissions, then a kick that reads an event index. */
  datatype Round = Round(submissions: nat, event: nat)

  function Total(rs: seq<Round>): nat {
    if rs == [] then 0 else Total(rs[..|rs| - 1]) + rs[|rs| - 1].submissions
  }

  /** Whether kick k of a series of rounds notifies, from the 16-bit indices it sees. */
  predicate Notifies(rs: seq<Round>, k: nat)
    requires k < |rs|
  {
    VringNeedEvent(rs[k].event, Index16(Total(rs[..k + 1])), Index16(Total(rs[..k])))
  }

  lemma {:induction false} TotalGrows(rs: seq<Round>, j: nat, k: nat)
    requires j <= k <= |rs|
    ensures Total(rs[..j]) <= Total(rs[..k])
    decreases k - j
  {
    if j < k {
      TotalGrows(rs, j, k - 1);
      assert rs[..k][..k - 1] == rs[..k - 1];
    }
  }

  /** The windows of successive kicks tile the submissions: each submission is in exactly one. */
  lemma {:induction false} WindowsTile(rs: seq<Round>, n: nat) returns (k: nat)
    requires n < Total(rs)
    ensures k < |rs| && Total(rs[..k]) <= n < Total(rs[..k + 1])
    ensures forall j | 0 <= j < |rs| && Total(rs[..j]) <= n < Total(rs[..j + 1]) :: j == k
  {
    k := FindWindow(rs, n);
    forall j | 0 <= j < |rs| && Total(rs[..j]) <= n < Total(rs[..j + 1]) ensures j == k {
      if j < k { TotalGrows(rs, j + 1, k); } else if k < j { TotalGrows(rs, k + 1, j); }
    }
  }

  lemma {:induction false} FindWindow(rs: seq<Round>, n: nat) returns (k: nat)
    requires n < Total(rs)
    ensures k < |rs| && Total(rs[..k]) <= n < Total(rs[..k + 1])
    decreases |rs|
  {
    var m := |rs| - 1;
    if n < Total(rs[..m]) {
      k := FindWindow(rs[..m], n);
      assert rs[..m][..k] == rs[..k] && rs[..m][..k + 1] == rs[..k + 1];
    } else {
      k := m;
      assert rs[..m + 1] == rs;
    }
  }

  /** The device should be told: the round holds a submission with the index it asked for. */
  ghost predicate Due(rs: seq<Round>, k: nat)
    requires k < |rs|
  {
    InWindow(rs[k].event, Total(rs[..k]), Total(rs[..k + 1]))
  }

  /**
  A kick notifies exactly when one of the last (submissions mod 65536) submissions of its round has the
  requested index; a round of 65536 or more submissions always has one, anywhere.
  */
  lemma KickNotifiesIff(rs: seq<Round>, k: nat)
    requires k < |rs| && rs[k].event < 0x1_0000
    ensures var s, to := rs[k].submissions, Total(rs[..k + 1]);
      && s <= to && (Notifies(rs, k) <==> InWindow(rs[k].event, to - s % 0x1_0000, to))
      && (s >= 0x1_0000 ==> Due(rs, k))
  {
    assert rs[..k + 1][..k] == rs[..k];
    var from, to := Total(rs[..k]), Total(rs[..k + 1]);
    NeedEventIsWindow(rs[k].event, from, to);
    if rs[k].submissions >= 0x1_0000 {
      var back := (to - rs[k].event - 1) % 0x1_0000;
      BackFrom(rs[k].event, to, to - 1 - back);
    }
  }

  /**
  The device hears of what it asked for, and of nothing else, if and only if there were fewer than 65536
  submissions since the last kick or the last (submissions mod 65536) of them hold the event.
  */
  lemma KickIsRightIff(rs: seq<Round>, k: nat)
    requires k < |rs| && rs[k].event < 0x1_0000
    ensures var s, to := rs[k].submissions, Total(rs[..k + 1]);
      (Notifies(rs, k) <==> Due(rs, k)) <==> s < 0x1_0000 || (s <= to && InWindow(rs[k].event, to - s % 0x1_0000, to))
  {
    KickNotifiesIff(rs, k);
    assert rs[..k + 1][..k] == rs[..k];
    NeedEventIsWindow(rs[k].event, Total(rs[..k]), Total(rs[..k + 1]));
  }

  /** At a whole number of turns the window looks empty, whatever the device asked for. */
  lemma FullTurnIsMissed(rs: seq<Round>, k: nat)
    requires k < |rs| && rs[k].event < 0x1_0000 && rs[k].submissions >= 0x1_0000 && rs[k].submissions % 0x1_0000 == 0
    ensures !Notifies(rs, k) && Due(rs, k)
  {
    KickNotifiesIff(rs, k);
  }
}
