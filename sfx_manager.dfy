/** The sound-effect manager's list of effects, as far as ids go: the editor
    check that gives every effect its own id, and the lookup by id that
    playing, stopping and fading go through. */
module Audio {

  /** Random.Range(MinId, MaxId) draws a fresh id; the upper bound is excluded. */
  const MinId := 1000
  const MaxId := 10000

  predicate InIdRange(id: int) {
    MinId <= id < MaxId
  }

  /** Every draw of the random stream is an id Random.Range can return. */
  predicate Draws(s: seq<int>) {
    forall k :: 0 <= k < |s| ==> InIdRange(s[k])
  }

  /** `rest` is what is left of `draws` after taking some from the front. */
  predicate SuffixOf(rest: seq<int>, draws: seq<int>) {
    |rest| <= |draws| && rest == draws[|draws| - |rest|..]
  }

  lemma SuffixOfTrans(a: seq<int>, b: seq<int>, c: seq<int>)
    requires SuffixOf(a, b) && SuffixOf(b, c)
    ensures SuffixOf(a, c)
  {
  }

  /** No entry other than entry k holds the id d. */
  predicate FreshAt(ids: seq<int>, k: int, d: int) {
    forall j :: 0 <= j < |ids| && j != k ==> ids[j] != d
  }

  /** No other entry has the id of entry k. */
  predicate UniqueAt(ids: seq<int>, k: int)
    requires 0 <= k < |ids|
  {
    FreshAt(ids, k, ids[k])
  }

  /** Where GenerateID's redrawing stops: at the first draw no other entry
      holds, with the draws after it left; or the stream runs out first. */
  datatype Redraw = Found(id: int, rest: seq<int>) | RanOut

  function FirstFresh(ids: seq<int>, k: int, draws: seq<int>): (r: Redraw)
    ensures r.Found? ==> FreshAt(ids, k, r.id) && |r.rest| < |draws|
    decreases |draws|
  {
    if draws == [] then RanOut
    else if FreshAt(ids, k, draws[0]) then Found(draws[0], draws[1..])
    else FirstFresh(ids, k, draws[1..])
  }

  /** FirstFresh runs out exactly when no draw is fresh; otherwise it takes
      the first fresh draw, skipping only draws that are not fresh, and
      leaves exactly the draws after it. */
  lemma {:induction false} FirstFreshIsFirst(ids: seq<int>, k: int, draws: seq<int>)
    ensures FirstFresh(ids, k, draws).RanOut? <==> forall m :: 0 <= m < |draws| ==> !FreshAt(ids, k, draws[m])
    ensures FirstFresh(ids, k, draws).Found? ==>
              var n := |draws| - |FirstFresh(ids, k, draws).rest| - 1;
              && FirstFresh(ids, k, draws) == Found(draws[n], draws[n + 1..])
              && forall m :: 0 <= m < n ==> !FreshAt(ids, k, draws[m])
    decreases |draws|
  {
    if draws != [] && !FreshAt(ids, k, draws[0]) {
      FirstFreshIsFirst(ids, k, draws[1..]);
      assert forall m :: 1 <= m < |draws| ==> draws[m] == draws[1..][m - 1];
      if FirstFresh(ids, k, draws).Found? {
        var n := |draws| - |FirstFresh(ids, k, draws).rest| - 1;
        assert draws[1..][n - 1 + 1..] == draws[n + 1..];
      }
    }
  }

  /** Whether an id is fresh for entry k does not depend on entry k's own id. */
  lemma FreshAtIgnoresOwnId(a: seq<int>, b: seq<int>, k: int, d: int)
    requires |a| == |b| && 0 <= k < |a|
    requires forall j :: 0 <= j < |a| && j != k ==> a[j] == b[j]
    ensures FreshAt(a, k, d) == FreshAt(b, k, d)
  {
  }

  /** Nor does where the redrawing stops. */
  lemma {:induction false} FirstFreshIgnoresOwnId(a: seq<int>, b: seq<int>, k: int, draws: seq<int>)
    requires |a| == |b| && 0 <= k < |a|
    requires forall j :: 0 <= j < |a| && j != k ==> a[j] == b[j]
    ensures FirstFresh(a, k, draws) == FirstFresh(b, k, draws)
    decreases |draws|
  {
    if draws != [] {
      FreshAtIgnoresOwnId(a, b, k, draws[0]);
      FirstFreshIgnoresOwnId(a, b, k, draws[1..]);
    }
  }

  /** Every entry has its own id. */
  predicate AllUnique(ids: seq<int>) {
    forall k :: 0 <= k < |ids| ==> UniqueAt(ids, k)
  }

  /** Every entry after entry i has its own id. */
  predicate UniqueAfter(ids: seq<int>, i: int) {
    forall j :: 0 <= j < |ids| && i < j ==> UniqueAt(ids, j)
  }

  /** Every id of `now` is the one `orig` had at that position, or a drawn one. */
  predicate KeptOrDrawn(orig: seq<int>, now: seq<int>) {
    |orig| == |now| && forall k :: 0 <= k < |now| ==> now[k] == orig[k] || InIdRange(now[k])
  }

  /** Redrawing entry i alone keeps every id kept or drawn. */
  lemma KeptOrDrawnStep(orig: seq<int>, before: seq<int>, after: seq<int>, i: int)
    requires KeptOrDrawn(orig, before) && |after| == |before| && 0 <= i < |after|
    requires forall j :: 0 <= j < |after| && j != i ==> after[j] == before[j]
    requires after[i] == before[i] || InIdRange(after[i])
    ensures KeptOrDrawn(orig, after)
  {
  }

  /** No earlier entry has the id of entry k: the entry that keeps it. */
  predicate FirstWithId(ids: seq<int>, k: int)
    requires 0 <= k < |ids|
  {
    forall j :: 0 <= j < k ==> ids[j] != ids[k]
  }

  /** Every entry after entry i holds its original id exactly when it was the
      first entry with that id. */
  predicate KeepsFirstIds(orig: seq<int>, now: seq<int>, i: int) {
    |orig| == |now| && forall j :: 0 <= j < |now| && i < j ==> (now[j] == orig[j] <==> FirstWithId(orig, j))
  }

  /** The draws are all different and none is an id already in the list. */
  predicate FreshDraws(draws: seq<int>, ids: seq<int>) {
    && (forall a, b :: 0 <= a < b < |draws| ==> draws[a] != draws[b])
    && (forall a :: 0 <= a < |draws| ==> draws[a] !in ids)
  }

  /** With fresh draws, the first draw is taken, and the rest stay fresh. */
  lemma FreshDrawTaken(ids: seq<int>, after: seq<int>, k: int, draws: seq<int>)
    requires FreshDraws(draws, ids) && draws != [] && 0 <= k < |ids|
    requires |after| == |ids| && after[k] == draws[0]
    requires forall j :: 0 <= j < |ids| && j != k ==> after[j] == ids[j]
    ensures FirstFresh(ids, k, draws) == Found(draws[0], draws[1..])
    ensures FreshDraws(draws[1..], after)
  {
  }

  /** Validating entry i, after the walk has done the entries behind it, keeps
      its id exactly when no earlier entry has the same one. */
  lemma KeepsFirstIdsStep(orig: seq<int>, before: seq<int>, after: seq<int>, i: int)
    requires |orig| == |before| == |after| && 0 <= i < |orig|
    requires forall j :: 0 <= j <= i ==> before[j] == orig[j]
    requires KeepsFirstIds(orig, before, i) && UniqueAfter(before, i)
    requires forall j :: 0 <= j < |after| && j != i ==> after[j] == before[j]
    requires UniqueAt(after, i)
    requires UniqueAt(before, i) ==> after[i] == before[i]
    ensures forall j :: 0 <= j < i ==> after[j] == orig[j]
    ensures KeepsFirstIds(orig, after, i - 1)
  {
    if FirstWithId(orig, i) {
      forall j | 0 <= j < |before| && j != i
        ensures before[j] != before[i]
      {
        if j > i {
          assert UniqueAt(before, j);
        }
      }
      assert UniqueAt(before, i);
    } else {
      var j :| 0 <= j < i && orig[j] == orig[i];
      assert after[j] == before[j] == orig[j];
    }
  }

  /** What OnValidate's walk from the back has done once it is down to entry
      i: the entries after i have their own ids, each of them kept its id
      exactly when it was the first with it, the entries up to i are as they
      were, and every id is kept or drawn. */
  predicate Walked(orig: seq<int>, now: seq<int>, i: int) {
    && |orig| == |now| && -1 <= i < |now|
    && UniqueAfter(now, i)
    && KeptOrDrawn(orig, now)
    && (forall j :: 0 <= j <= i ==> now[j] == orig[j])
    && KeepsFirstIds(orig, now, i)
  }

  datatype WalkOutcome = Done(ids: seq<int>, rest: seq<int>) | Stuck

  /** OnValidate's walk as a value: from entry i down to the first, an entry
      whose id another entry holds takes the first draw no other entry holds.
      It is stuck when some entry finds no such draw. */
  function Walk(ids: seq<int>, i: int, draws: seq<int>): (r: WalkOutcome)
    requires -1 <= i < |ids|
    ensures r.Done? ==> |r.ids| == |ids| && |r.rest| <= |draws|
    ensures r.Done? ==> forall j :: i < j < |ids| ==> r.ids[j] == ids[j]
    decreases i + 1
  {
    if i < 0 then Done(ids, draws)
    else if UniqueAt(ids, i) then Walk(ids, i - 1, draws)
    else match FirstFresh(ids, i, draws)
      case RanOut => Stuck
      case Found(d, rest) => Walk(ids[i := d], i - 1, rest)
  }

  /** The walk on a list with one repeated id: the second 5 takes the first
      draw, and the rest of the list keeps its ids. */
  lemma WalkRedrawsSecondHolder()
    ensures Walk([5, 5, 7], 2, [1000, 1001]) == Done([5, 1000, 7], [1001])
  {
  }

  /** One step of the walk: once entry i has an id no other entry holds,
      drawn or kept, and kept whenever it was already its own, the walk has
      done entry i too. */
  lemma WalkStep(orig: seq<int>, before: seq<int>, after: seq<int>, i: int)
    requires Walked(orig, before, i) && 0 <= i && |after| == |before|
    requires forall j :: 0 <= j < |after| && j != i ==> after[j] == before[j]
    requires UniqueAt(after, i)
    requires after[i] == before[i] || InIdRange(after[i])
    requires UniqueAt(before, i) ==> after == before
    ensures Walked(orig, after, i - 1)
  {
    KeptOrDrawnStep(orig, before, after, i);
    RevalidatedEntryKeepsOthersUnique(before, after, i);
    KeepsFirstIdsStep(orig, before, after, i);
  }

  /** A ValidateID call on entry i whose outcome is the one its contract
      gives is one step of Walk. */
  lemma WalkAdvances(before: seq<int>, after: seq<int>, i: int,
                     given: seq<int>, rest: seq<int>, ok: bool)
    requires 0 <= i < |before| && |after| == |before|
    requires forall j :: 0 <= j < |after| && j != i ==> after[j] == before[j]
    requires UniqueAt(before, i) ==> ok && after == before && rest == given
    requires !UniqueAt(before, i) ==> FirstFresh(before, i, given) == if ok then Found(after[i], rest) else RanOut
    ensures Walk(before, i, given) == if ok then Walk(after, i - 1, rest) else Stuck
  {
    if ok && !UniqueAt(before, i) {
      assert before[i := after[i]] == after;
    }
  }

  /** Walk from entry i down finishes what the walk so far has started: when
      it is not stuck, every entry has its own id, the first holder of each id
      kept it, and the draws it leaves are a suffix of those it was given. */
  lemma {:induction false} WalkKeeps(orig: seq<int>, cur: seq<int>, i: int, draws: seq<int>)
    requires Walked(orig, cur, i) && Draws(draws)
    ensures Walk(cur, i, draws).Done? ==> Walked(orig, Walk(cur, i, draws).ids, -1)
    decreases i + 1
  {
    if i >= 0 && UniqueAt(cur, i) {
      assert Walk(cur, i, draws) == Walk(cur, i - 1, draws);
      WalkStep(orig, cur, cur, i);
      WalkKeeps(orig, cur, i - 1, draws);
    } else if i >= 0 && FirstFresh(cur, i, draws).Found? {
      var d, r := FirstFresh(cur, i, draws).id, FirstFresh(cur, i, draws).rest;
      var after := cur[i := d];
      WalkFoundStep(orig, cur, i, draws);
      WalkKeeps(orig, after, i - 1, r);
    } else if i >= 0 {
      assert Walk(cur, i, draws) == Stuck;
    } else {
      assert Walk(cur, i, draws) == Done(cur, draws);
    }
  }

  /** The draws Walk leaves are what is left of those it was given. */
  lemma {:induction false} WalkLeavesSuffix(cur: seq<int>, i: int, draws: seq<int>)
    requires -1 <= i < |cur|
    ensures Walk(cur, i, draws).Done? ==> SuffixOf(Walk(cur, i, draws).rest, draws)
    decreases i + 1
  {
    if i >= 0 && UniqueAt(cur, i) {
      assert Walk(cur, i, draws) == Walk(cur, i - 1, draws);
      WalkLeavesSuffix(cur, i - 1, draws);
    } else if i >= 0 && FirstFresh(cur, i, draws).Found? {
      var d, r := FirstFresh(cur, i, draws).id, FirstFresh(cur, i, draws).rest;
      assert Walk(cur, i, draws) == Walk(cur[i := d], i - 1, r);
      FirstFreshIsFirst(cur, i, draws);
      WalkLeavesSuffix(cur[i := d], i - 1, r);
      if Walk(cur[i := d], i - 1, r).Done? {
        SuffixOfTrans(Walk(cur[i := d], i - 1, r).rest, r, draws);
      }
    }
  }

  /** An entry whose id is shared takes the first fresh draw: the walk moves
      on to the entry before it with the draws after that one. */
  lemma WalkFoundStep(orig: seq<int>, cur: seq<int>, i: int, draws: seq<int>)
    requires Walked(orig, cur, i) && Draws(draws) && 0 <= i
    requires !UniqueAt(cur, i) && FirstFresh(cur, i, draws).Found?
    ensures Walked(orig, cur[i := FirstFresh(cur, i, draws).id], i - 1)
    ensures Draws(FirstFresh(cur, i, draws).rest) && SuffixOf(FirstFresh(cur, i, draws).rest, draws)
    ensures Walk(cur, i, draws) == Walk(cur[i := FirstFresh(cur, i, draws).id], i - 1, FirstFresh(cur, i, draws).rest)
  {
    var d, r := FirstFresh(cur, i, draws).id, FirstFresh(cur, i, draws).rest;
    FirstFreshIsFirst(cur, i, draws);
    var after := cur[i := d];
    FreshAtIgnoresOwnId(cur, after, i, d);
    WalkStep(orig, cur, after, i);
  }

  /** With fresh draws, one per entry still to check, Walk is not stuck. */
  lemma {:induction false} WalkNotStuck(cur: seq<int>, i: int, draws: seq<int>)
    requires -1 <= i < |cur| && FreshDraws(draws, cur) && |draws| >= i + 1
    ensures Walk(cur, i, draws).Done?
    decreases i + 1
  {
    if i >= 0 && UniqueAt(cur, i) {
      WalkNotStuck(cur, i - 1, draws);
    } else if i >= 0 {
      var after := cur[i := draws[0]];
      FreshDrawTaken(cur, after, i, draws);
      WalkNotStuck(after, i - 1, draws[1..]);
    }
  }

  /** A list whose ids are all unique is walked without a change or a draw. */
  lemma {:induction false} WalkOnUnique(ids: seq<int>, i: int, draws: seq<int>)
    requires AllUnique(ids) && -1 <= i < |ids|
    ensures Walk(ids, i, draws) == Done(ids, draws)
    decreases i + 1
  {
    if i >= 0 {
      assert UniqueAt(ids, i);
      WalkOnUnique(ids, i - 1, draws);
    }
  }

  /** What OnValidate's walk over the whole list promises. */
  lemma WalkSound(ids: seq<int>, draws: seq<int>)
    requires Draws(draws)
    ensures Walk(ids, |ids| - 1, draws).Done? ==>
              && AllUnique(Walk(ids, |ids| - 1, draws).ids)
              && KeptOrDrawn(ids, Walk(ids, |ids| - 1, draws).ids)
              && KeepsFirstIds(ids, Walk(ids, |ids| - 1, draws).ids, -1)
              && SuffixOf(Walk(ids, |ids| - 1, draws).rest, draws)
    ensures AllUnique(ids) ==> Walk(ids, |ids| - 1, draws) == Done(ids, draws)
    ensures FreshDraws(draws, ids) && |draws| >= |ids| ==> Walk(ids, |ids| - 1, draws).Done?
  {
    WalkKeeps(ids, ids, |ids| - 1, draws);
    WalkLeavesSuffix(ids, |ids| - 1, draws);
    if FreshDraws(draws, ids) && |draws| >= |ids| {
      WalkNotStuck(ids, |ids| - 1, draws);
    }
    if AllUnique(ids) {
      WalkOnUnique(ids, |ids| - 1, draws);
    }
  }

  /** When entry i alone changes and ends up unique, the entries after it that
      were unique stay unique: OnValidate's walk from the back keeps what it
      has done. */
  lemma RevalidatedEntryKeepsOthersUnique(before: seq<int>, after: seq<int>, i: int)
    requires |before| == |after| && 0 <= i < |after|
    requires forall j :: 0 <= j < |after| && j != i ==> after[j] == before[j]
    requires UniqueAt(after, i)
    requires UniqueAfter(before, i)
    ensures UniqueAfter(after, i - 1)
  {
    forall j | i < j < |after|
      ensures UniqueAt(after, j)
    {
      assert UniqueAt(before, j);
      forall k | 0 <= k < |after| && k != j
        ensures after[k] != after[j]
      {
        if k == i {
          assert after[i] != after[j];
        } else {
          assert before[k] != before[j];
        }
      }
    }
  }

  /** The entry one audio call acts on, by its index in the list. */
  datatype AudioCommand = Play(entry: nat) | Stop(entry: nat) | FadeIn(entry: nat) | FadeOut(entry: nat)

  class SfxManager {
    /** ids[i] is the id of the i-th entry of the list. Entries are distinct
        objects, so writing an entry's id changes that entry only. */
    var ids: array<int>

    constructor (initial: seq<int>)
      ensures fresh(ids) && ids[..] == initial
    {
      ids := new int[|initial|](i requires 0 <= i < |initial| => initial[i]);
    }

    /** The editor hook: walks the list from the last entry to the first and
        makes each entry's id unique. `draws` is the random stream the
        redraws take their ids from. The outcome is exactly Walk's: `ok` is
        false only when some entry finds no fresh draw left, and then no
        draws are left. */
    method OnValidate(draws: seq<int>) returns (rest: seq<int>, ok: bool)
      requires Draws(draws)
      modifies ids
      ensures ok ==> AllUnique(ids[..])
      ensures !ok ==> rest == []
      ensures AllUnique(old(ids[..])) ==> ok && ids[..] == old(ids[..]) && rest == draws
      ensures KeptOrDrawn(old(ids[..]), ids[..])
      ensures ok ==> KeepsFirstIds(old(ids[..]), ids[..], -1)
      ensures FreshDraws(draws, old(ids[..])) && |draws| >= ids.Length ==> ok
      ensures SuffixOf(rest, draws)
      ensures Walk(old(ids[..]), ids.Length - 1, draws) == if ok then Done(ids[..], rest) else Stuck
    {
      ghost var orig := ids[..];
      ghost var cur := orig;
      ghost var goal := Walk(orig, |orig| - 1, draws);
      WalkSound(orig, draws);
      rest, ok := draws, true;
      var i := ids.Length - 1;
      while i >= 0
        invariant cur == ids[..] && |cur| == |orig| && -1 <= i < |cur|
        invariant ok && goal == Walk(cur, i, rest)
        invariant KeptOrDrawn(orig, cur)
        invariant SuffixOf(rest, draws)
      {
        ghost var before := cur;
        ghost var given := rest;
        var r;
        r, ok := ValidateId(i, rest);
        cur := ids[..];
        SuffixOfTrans(r, rest, draws);
        rest := r;
        WalkAdvances(before, cur, i, given, rest, ok);
        KeptOrDrawnStep(orig, before, cur, i);
        if !ok {
          assert goal == Stuck && rest == [];
          return;
        }
        i := i - 1;
      }
      assert goal == Done(cur, rest);
    }

    /** Compares entry `index` with every entry from the last to the first and
        draws it a new id whenever another entry holds the same one. Only that
        entry's id can change, and an id nobody else holds is kept. */
    method ValidateId(index: nat, draws: seq<int>) returns (rest: seq<int>, ok: bool)
      requires index < ids.Length && Draws(draws)
      modifies ids
      decreases |draws|, 1
      ensures forall j :: 0 <= j < ids.Length && j != index ==> ids[j] == old(ids[j])
      ensures ok ==> UniqueAt(ids[..], index)
      ensures !ok ==> rest == []
      ensures ids[index] == old(ids[index]) || InIdRange(ids[index])
      ensures UniqueAt(old(ids[..]), index) ==> ok && ids[..] == old(ids[..]) && rest == draws
      ensures !UniqueAt(old(ids[..]), index) ==>
                FirstFresh(old(ids[..]), index, draws) == if ok then Found(ids[index], rest) else RanOut
      ensures SuffixOf(rest, draws)
    {
      ghost var orig := ids[..];
      ghost var unique := UniqueAt(orig, index);
      ghost var outcome := FirstFresh(orig, index, draws);
      ghost var redrawn := false;
      rest, ok := draws, true;
      var i := ids.Length - 1;
      while i >= 0
        invariant -1 <= i < ids.Length && ok
        invariant forall j :: 0 <= j < ids.Length && j != index ==> ids[j] == orig[j]
        invariant forall j :: i < j < ids.Length && j != index ==> ids[j] != ids[index]
        invariant ids[index] == orig[index] || InIdRange(ids[index])
        invariant !redrawn ==> ids[..] == orig && rest == draws
        invariant redrawn ==> !unique && outcome == Found(ids[index], rest)
        invariant SuffixOf(rest, draws)
      {
        if ids[index] == ids[i] && index != i {
          assert !redrawn && !unique;
          var r;
          r, ok := GenerateId(index, rest);
          SuffixOfTrans(r, rest, draws);
          rest := r;
          if !ok {
            return;
          }
          redrawn := true;
        }
        i := i - 1;
      }
      assert UniqueAt(ids[..], index);
    }

    /** Gives entry `index` the next drawn id and validates it again. */
    method GenerateId(index: nat, draws: seq<int>) returns (rest: seq<int>, ok: bool)
      requires index < ids.Length && Draws(draws)
      modifies ids
      decreases |draws|, 0
      ensures forall j :: 0 <= j < ids.Length && j != index ==> ids[j] == old(ids[j])
      ensures ok ==> UniqueAt(ids[..], index)
      ensures ok ==> InIdRange(ids[index])
      ensures !ok ==> rest == []
      ensures ids[index] == old(ids[index]) || InIdRange(ids[index])
      ensures |rest| < |draws| || (rest == draws && !ok)
      ensures FirstFresh(old(ids[..]), index, draws) == if ok then Found(ids[index], rest) else RanOut
      ensures SuffixOf(rest, draws)
    {
      if draws == [] {
        return draws, false;
      }
      ghost var before := ids[..];
      ids[index] := draws[0];
      ghost var written := ids[..];
      FirstFreshIgnoresOwnId(before, written, index, draws[1..]);
      FreshAtIgnoresOwnId(before, written, index, draws[0]);
      assert written[index] == draws[0];
      rest, ok := ValidateId(index, draws[1..]);
      SuffixOfTrans(rest, draws[1..], draws);
    }

    /** An id in the list is the id of some entry. */
    lemma IndexOfPresent(id: int)
      requires id in ids[..]
      ensures exists k :: 0 <= k < ids.Length && ids[k] == id
    {
      var k :| 0 <= k < ids.Length && ids[..][k] == id;
      assert ids[k] == id;
    }

    /** List.FindIndex on the ids: the first entry with this id, or -1. */
    method FindIndex(id: int) returns (index: int)
      ensures -1 <= index < ids.Length
      ensures index == -1 <==> forall k :: 0 <= k < ids.Length ==> ids[k] != id
      ensures 0 <= index ==> index < ids.Length && ids[index] == id
      ensures 0 <= index ==> forall k :: 0 <= k < index ==> ids[k] != id
    {
      index := 0;
      while index < ids.Length
        invariant 0 <= index <= ids.Length
        invariant forall k :: 0 <= k < index ==> ids[k] != id
      {
        if ids[index] == id {
          return;
        }
        index := index + 1;
      }
      index := -1;
    }

    /** The entry PlaySFX(id) plays: the first with that id, and the only
        one once every id is unique. The id must be in the list. */
    method PlaySfx(id: int) returns (command: AudioCommand)
      requires id in ids[..]
      ensures command.Play? && command.entry < ids.Length && ids[command.entry] == id
      ensures forall k :: 0 <= k < command.entry ==> ids[k] != id
      ensures AllUnique(ids[..]) ==> forall k :: 0 <= k < ids.Length && ids[k] == id ==> k == command.entry
    {
      var index := FindIndex(id);
      IndexOfPresent(id);
      command := Play(index);
      if AllUnique(ids[..]) {
        assert UniqueAt(ids[..], index);
      }
    }

    /** The entry StopSFX(id) stops. The id must be in the list. */
    method StopSfx(id: int) returns (command: AudioCommand)
      requires id in ids[..]
      ensures command.Stop? && command.entry < ids.Length && ids[command.entry] == id
      ensures forall k :: 0 <= k < command.entry ==> ids[k] != id
    {
      var index := FindIndex(id);
      IndexOfPresent(id);
      command := Stop(index);
    }

    /** The entry FadeInSFX(id) fades in. The id must be in the list. */
    method FadeInSfx(id: int) returns (command: AudioCommand)
      requires id in ids[..]
      ensures command.FadeIn? && command.entry < ids.Length && ids[command.entry] == id
      ensures forall k :: 0 <= k < command.entry ==> ids[k] != id
    {
      var index := FindIndex(id);
      IndexOfPresent(id);
      command := FadeIn(index);
    }

    /** The entry FadeOutSFX(id) fades out. The id must be in the list. */
    method FadeOutSfx(id: int) returns (command: AudioCommand)
      requires id in ids[..]
      ensures command.FadeOut? && command.entry < ids.Length && ids[command.entry] == id
      ensures forall k :: 0 <= k < command.entry ==> ids[k] != id
    {
      var index := FindIndex(id);
      IndexOfPresent(id);
      command := FadeOut(index);
    }
  }
}
