/**
 * The ambience player: a list of looping background sounds, one player per
 * sound, a selected index that the change button advances cyclically, and a
 * play button that starts or stops the selected sound. Each player is
 * represented by its `paused` flag, in list order.
 */
module AmbienceSelector {

  /** `ambList`: the sounds, in the order the change button visits them. */
  const Tracks: seq<string> := ["rain", "forest"]

  /** No two players are playing at once. */
  predicate AtMostOnePlaying(paused: seq<bool>) {
    forall i, j :: 0 <= i < |paused| && 0 <= j < |paused| && !paused[i] && !paused[j] ==> i == j
  }

  /** The index after `i` in a list of `n` entries, wrapping to 0 after the last. */
  function Next(i: nat, n: nat): (j: nat)
    requires i < n
    ensures j < n
  {
    (i + 1) % n
  }

  /** `k` presses of the change button, starting from index `i`. */
  function Advance(i: nat, k: nat, n: nat): (j: nat)
    requires i < n
    ensures j < n
  {
    if k == 0 then i else Next(Advance(i, k - 1, n), n)
  }

  /**
   * The players after the play button with sound `k` selected: when it was
   * paused every other player is stopped and it plays; when it was playing
   * it is paused.
   */
  function AfterPlay(paused: seq<bool>, k: nat): (r: seq<bool>)
    requires k < |paused|
    ensures |r| == |paused| && r[k] == !paused[k]
    ensures paused[k] ==> forall i :: 0 <= i < |r| && i != k ==> r[i]
    ensures !paused[k] ==> forall i :: 0 <= i < |r| && i != k ==> r[i] == paused[i]
  {
    if paused[k] then seq(|paused|, i => i != k) else paused[k := true]
  }

  lemma MulAwayFromZero(d: int, n: int)
    requires n > 0
    ensures d >= 1 ==> d * n >= n
    ensures d <= -1 ==> d * n <= -n
  {
  }

  /** `x % n` is the one remainder `r` with `x == q * n + r` and `0 <= r < n`. */
  lemma ModUnique(x: int, n: int, q: int, r: int)
    requires 0 <= r < n && x == q * n + r
    ensures x % n == r
  {
    var d := q - x / n;
    assert d * n == x % n - r;
    MulAwayFromZero(d, n);
  }

  lemma ModSucc(x: nat, n: nat)
    requires n > 0
    ensures (x % n + 1) % n == (x + 1) % n
  {
    var q, r := x / n, x % n;
    assert x == q * n + r;
    if r + 1 < n {
      ModUnique(r + 1, n, 0, r + 1);
      ModUnique(x + 1, n, q, r + 1);
    } else {
      ModUnique(r + 1, n, 1, 0);
      ModUnique(x + 1, n, q + 1, 0);
    }
  }

  /** `k` presses of the change button move the selection `k` places round the list. */
  lemma {:induction false} AdvanceWraps(i: nat, k: nat, n: nat)
    requires i < n
    ensures Advance(i, k, n) == (i + k) % n
  {
    if k == 0 {
      ModUnique(i, n, 0, i);
    } else {
      AdvanceWraps(i, k - 1, n);
      AdvanceStep(i, k, n, i + k - 1);
    }
  }

  lemma AdvanceStep(i: nat, k: nat, n: nat, x: nat)
    requires i < n && k > 0 && x + 1 == i + k
    requires Advance(i, k - 1, n) == x % n
    ensures Advance(i, k, n) == (x + 1) % n
  {
    assert Advance(i, k, n) == Next(x % n, n);
    ModSucc(x, n);
  }

  /**
   * The change button visits every sound: from any selection, each index is
   * reached within one round, and a full round comes back to the start.
   */
  lemma ChangeVisitsAll(i: nat, j: nat, n: nat)
    requires i < n && j < n
    ensures Advance(i, n, n) == i
    ensures Advance(i, (j + n - i) % n, n) == j
  {
    AdvanceWraps(i, n, n);
    ModUnique(i + n, n, 1, i);
    var k := (j + n - i) % n;
    AdvanceWraps(i, k, n);
    if i <= j {
      ModUnique(j + n - i, n, 1, j - i);
      ModUnique(j, n, 0, j);
    } else {
      ModUnique(j + n - i, n, 0, j + n - i);
      ModUnique(j + n, n, 1, j);
    }
  }

  /**
   * After the play button, at most one player is playing, and it is the
   * selected one exactly when that one had been paused.
   */
  lemma PlayLeavesAtMostOne(paused: seq<bool>, k: nat)
    requires k < |paused| && AtMostOnePlaying(paused)
    ensures AtMostOnePlaying(AfterPlay(paused, k))
    ensures forall i :: 0 <= i < |paused| ==> (!AfterPlay(paused, k)[i] <==> i == k && paused[k])
  {
  }

  class Ambience {
    /** The `paused` flag of each sound's player, in the order of `Tracks`. */
    const paused: array<bool>
    /** `ambIndex`: the selected sound. */
    var index: nat

    ghost predicate Valid()
      reads this, paused
    {
      paused.Length == |Tracks| && index < |Tracks| && AtMostOnePlaying(paused[..])
    }

    /** A new audio element starts paused; the first sound is selected. */
    constructor ()
      ensures Valid() && fresh(paused)
      ensures index == 0 && forall i :: 0 <= i < paused.Length ==> paused[i]
    {
      paused := new bool[|Tracks|](_ => true);
      index := 0;
    }

    /** `stopAllAmbiencePlayers()`: pauses every player that is playing. */
    method StopAll()
      requires paused.Length == |Tracks|
      modifies paused
      ensures forall i :: 0 <= i < paused.Length ==> paused[i]
    {
      var i := 0;
      while i < |Tracks|
        invariant 0 <= i <= |Tracks|
        invariant forall j :: 0 <= j < i ==> paused[j]
      {
        if !paused[i] {
          paused[i] := true;
        }
        i := i + 1;
      }
    }

    /** The play button's click handler. */
    method PlayClicked()
      requires Valid()
      modifies paused
      ensures Valid()
      ensures paused[..] == AfterPlay(old(paused[..]), index)
    {
      ghost var before := paused[..];
      if paused[index] {
        StopAll();
        paused[index] := false;
        var k := index;
        assert paused[..] == seq(|before|, i => i != k);
      } else {
        paused[index] := true;
        assert paused[..] == before[index := true];
      }
      PlayLeavesAtMostOne(before, index);
    }

    /** The change button's click handler: stops every sound and selects the next one. */
    method ChangeClicked()
      requires Valid()
      modifies this, paused
      ensures Valid()
      ensures index == Next(old(index), |Tracks|)
      ensures forall i :: 0 <= i < paused.Length ==> paused[i]
    {
      StopAll();
      index := (index + 1) % |Tracks|;
    }
  }
}
