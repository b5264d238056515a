/**
 * The history of passages played in a session (src/passage_controller/mod.rs): a
 * fixed-capacity ring of passages, a current index and the index of the oldest passage
 * kept. Fetching a new passage (from the installed language packs, or a fallback) is
 * abstract: the controller is given a `source` and numbers its requests, so the n-th
 * fetch yields `source(n)`.
 */
module PassageController {

  datatype PassageInfo = PassageInfo(passage: string, title: string, passagePath: string)

  /** What the player asked for at the end of a round. */
  datatype Action = NextPassage | PreviousPassage | RestartPassage | Quit

  /** A snapshot of the controller: the slots, the current and oldest indices, whether no
      passage has been fetched yet, and how many fetches were made. */
  datatype History = History(passages: seq<PassageInfo>, current: nat, start: nat,
                             firstRun: bool, fetched: nat)

  /** `Controller::new`: nothing fetched yet. */
  function New(): History
  {
    History([], 0, 0, true, 0)
  }

  /** The invariant every reachable history keeps: both indices lie in the ring, nothing
      has moved before the first fetch, and once something was fetched the current index
      names a filled slot. Until the ring is full the oldest passage is slot 0. */
  predicate Inv(h: History, size: nat)
  {
    size >= 1 && h.current < size && h.start < size &&
    (h.firstRun ==> h.current == 0 && h.start == 0) &&
    (!h.firstRun ==> h.current < |h.passages|) &&
    (|h.passages| < size ==> h.start == 0)
  }

  /** The invariant of a session that did not start with a passage of the user's own:
      the ring never holds more than `size` passages. */
  predicate Bounded(h: History, size: nat)
  {
    Inv(h, size) && |h.passages| <= size && (h.firstRun ==> h.passages == [])
  }

  /** The passage a retrieval returns. */
  function Current(h: History): PassageInfo
    requires h.current < |h.passages|
  {
    h.passages[h.current]
  }

  /** `retrieve_next_passage`. The first call fetches without moving. Later calls advance
      the current index around the ring; reaching the oldest slot evicts it (the oldest
      index moves on and the slot gets a fresh passage); reaching the first empty slot
      fills it; any other slot is replayed from history. */
  function Next(h: History, size: nat, source: nat -> PassageInfo): (r: History)
    requires size >= 1
    ensures h.firstRun ==> r == h.(passages := h.passages + [source(h.fetched)],
                                   firstRun := false, fetched := h.fetched + 1)
    ensures !h.firstRun ==> r.current == Wrap(h.current + 1, size) && !r.firstRun
    ensures |r.passages| >= |h.passages|
    ensures forall i :: 0 <= i < |h.passages| && (h.firstRun || i != r.current) ==>
              r.passages[i] == h.passages[i]
  {
    if h.firstRun then
      h.(passages := h.passages + [source(h.fetched)], firstRun := false, fetched := h.fetched + 1)
    else
      var current := Wrap(h.current + 1, size);
      var newPassage := source(h.fetched);
      if current == h.start then
        var start := Wrap(h.start + 1, size);
        if |h.passages| < size then
          h.(passages := h.passages + [newPassage], current := current, start := start,
             fetched := h.fetched + 1)
        else
          h.(passages := h.passages[current := newPassage], current := current, start := start,
             fetched := h.fetched + 1)
      else if |h.passages| < size && current == |h.passages| then
        h.(passages := h.passages + [newPassage], current := current, fetched := h.fetched + 1)
      else
        h.(current := current)
  }

  /** `retrieve_previous_passage`: one step back around the ring, but never before the
      oldest passage kept. */
  function Previous(h: History, size: nat): (r: History)
    requires size >= 1
    ensures r == h.(current := r.current)
    ensures h.current == h.start ==> r == h
    ensures h.current != h.start && h.current < size ==> Wrap(r.current + 1, size) == h.current
  {
    if h.current != h.start then
      if h.current != 0 then h.(current := Wrap(h.current - 1, size))
      else h.(current := size - 1)
    else h
  }

  /** `write_initial_passage`: the user's own text is appended as a passage. */
  function WithInitialPassage(h: History, passage: string): (r: History)
    ensures r.passages == h.passages + [PassageInfo(passage, "User input", "User input")]
    ensures r == h.(passages := r.passages)
  {
    h.(passages := h.passages + [PassageInfo(passage, "User input", "User input")])
  }

  /** `retrieve_passage`: the history after an action. Restarting and quitting change
      nothing. */
  function Retrieve(h: History, action: Action, size: nat, source: nat -> PassageInfo): (r: History)
    requires size >= 1
    ensures action == RestartPassage || action == Quit ==> r == h
  {
    match action
    case NextPassage => Next(h, size, source)
    case PreviousPassage => Previous(h, size)
    case RestartPassage => h
    case Quit => h
  }

  /** `i % size` for a natural `i`, written as repeated subtraction; `WrapIsMod` proves
      the two equal. */
  function Wrap(i: nat, size: nat): (r: nat)
    requires size >= 1
    ensures r < size
    ensures i < size ==> r == i
    decreases i
  {
    if i < size then i else Wrap(i - size, size)
  }

  /** Stepping forward from a slot of the ring. */
  lemma WrapStep(c: nat, size: nat)
    requires c < size
    ensures Wrap(c + 1, size) == if c + 1 == size then 0 else c + 1
  {
    if c + 1 == size {
      assert Wrap(0, size) == 0;
    }
  }

  /** Wrapping commutes with the successor. */
  lemma {:induction false} WrapSucc(i: nat, size: nat)
    requires size >= 1
    ensures Wrap(i + 1, size) == if Wrap(i, size) + 1 == size then 0 else Wrap(i, size) + 1
    decreases i
  {
    if i + 1 == size {
      assert Wrap(0, size) == 0;
    } else if i >= size {
      WrapSucc(i - size, size);
      assert i + 1 - size == (i - size) + 1;
    }
  }

  /** `Wrap` is the remainder of the division by `size`. */
  lemma {:induction false} WrapIsMod(i: nat, size: nat)
    requires size >= 1
    ensures Wrap(i, size) == i % size
    decreases i
  {
    if i < size {
      ModOfMultiple(0, i, size);
    } else {
      WrapIsMod(i - size, size);
      ModShift(i, size);
    }
  }

  lemma ModShift(i: nat, size: nat)
    requires i >= size >= 1
    ensures (i - size) % size == i % size
  {
    var q, r := (i - size) / size, (i - size) % size;
    DivModParts(i - size, size);
    MulSucc(q, size);
    assert i == (q + 1) * size + r;
    ModOfMultiple(q + 1, r, size);
  }

  lemma MulAtLeast(d: int, size: nat)
    requires d >= 1
    ensures d * size >= size
  {
    assert d * size == (d - 1) * size + size;
  }

  lemma ModOfMultiple(q: nat, r: nat, size: nat)
    requires r < size
    ensures (q * size + r) % size == r
  {
    var x := q * size + r;
    var d := q - x / size;
    assert x == (x / size) * size + x % size;
    assert d * size == x % size - r;
    if d >= 1 {
      MulAtLeast(d, size);
    }
  }

  lemma DivModParts(a: nat, size: nat)
    requires size >= 1
    ensures a == (a / size) * size + a % size && 0 <= a % size < size
  {
  }

  lemma MulSucc(q: int, size: int)
    ensures (q + 1) * size == q * size + size
  {
  }

  lemma NewIsBounded(size: nat)
    requires size >= 1
    ensures Bounded(New(), size)
  {
  }

  /** Every action keeps the invariant, so the returned slot always exists. */
  lemma RetrieveKeepsInv(h: History, action: Action, size: nat, source: nat -> PassageInfo)
    requires Inv(h, size)
    requires action != NextPassage ==> h.current < |h.passages|
    ensures Inv(Retrieve(h, action, size, source), size)
    ensures Retrieve(h, action, size, source).current < |Retrieve(h, action, size, source).passages|
  {
    if action == NextPassage && !h.firstRun {
      WrapStep(h.current, size);
    }
  }

  /** Without a passage of the user's own the ring never grows past its capacity. */
  lemma RetrieveKeepsBounded(h: History, action: Action, size: nat, source: nat -> PassageInfo)
    requires Bounded(h, size)
    requires action != NextPassage ==> h.current < |h.passages|
    ensures Bounded(Retrieve(h, action, size, source), size)
  {
    RetrieveKeepsInv(h, action, size, source);
  }

  lemma WriteInitialKeepsInv(h: History, passage: string, size: nat)
    requires Inv(h, size)
    ensures Inv(WithInitialPassage(h, passage), size)
    ensures WithInitialPassage(h, passage).current < |WithInitialPassage(h, passage).passages|
  {
  }

  /** The first `NextPassage` fetches one passage and returns it from slot 0. */
  lemma FirstNext(size: nat, source: nat -> PassageInfo)
    requires size >= 1
    ensures Next(New(), size, source) == History([source(0)], 0, 0, false, 1)
  {
  }

  /** A passage typed in by the user is played first, and the first fetch waits behind
      it. */
  lemma InitialPassagePlayedFirst(passage: string, size: nat, source: nat -> PassageInfo)
    requires size >= 1
    ensures var h := Next(WithInitialPassage(New(), passage), size, source);
            Current(h) == PassageInfo(passage, "User input", "User input") &&
            h.passages == [Current(h), source(0)]
  {
  }

  /** Reaching the oldest slot evicts it: the oldest index moves on and the slot is
      overwritten with a fresh passage; the ring is full, so it does not grow. */
  lemma NextEvictsOldest(h: History, size: nat, source: nat -> PassageInfo)
    requires Inv(h, size) && !h.firstRun && Wrap(h.current + 1, size) == h.start
    ensures var r := Next(h, size, source);
            r.start == Wrap(h.start + 1, size) && |r.passages| == |h.passages| >= size &&
            Current(r) == source(h.fetched) && r.fetched == h.fetched + 1
  {
    WrapStep(h.current, size);
  }

  /** Reaching the first empty slot of a ring that is not yet full fills it. */
  lemma NextFillsEmptySlot(h: History, size: nat, source: nat -> PassageInfo)
    requires Inv(h, size) && !h.firstRun
    requires Wrap(h.current + 1, size) != h.start
    requires |h.passages| < size && Wrap(h.current + 1, size) == |h.passages|
    ensures var r := Next(h, size, source);
            r.passages == h.passages + [source(h.fetched)] && r.start == h.start &&
            Current(r) == source(h.fetched)
  {
  }

  /** Any other slot is replayed: nothing is fetched and only the index moves. */
  lemma NextReplaysHistory(h: History, size: nat, source: nat -> PassageInfo)
    requires Inv(h, size) && !h.firstRun
    requires Wrap(h.current + 1, size) != h.start
    requires !(|h.passages| < size && Wrap(h.current + 1, size) == |h.passages|)
    ensures Next(h, size, source) == h.(current := Wrap(h.current + 1, size))
  {
  }

  /** Going back and then forward again returns to exactly the same history, so "next"
      after "previous" replays instead of fetching. */
  lemma PreviousThenNext(h: History, size: nat, source: nat -> PassageInfo)
    requires Inv(h, size) && !h.firstRun && h.current != h.start
    ensures Next(Previous(h, size), size, source) == h
  {
    WrapStep(Previous(h, size).current, size);
  }

  /** At the oldest passage "previous" changes nothing, however often it is repeated. */
  lemma PreviousAtOldest(h: History, size: nat)
    requires size >= 1 && h.current == h.start
    ensures Previous(h, size) == h
    ensures Previous(Previous(h, size), size) == h
  {
  }

  /** "previous" steps back by one, from slot 0 to the last slot of the ring. */
  lemma PreviousSteps(h: History, size: nat)
    requires Inv(h, size) && h.current != h.start
    ensures h.current > 0 ==> Previous(h, size).current == h.current - 1
    ensures h.current == 0 ==> Previous(h, size).current == size - 1
  {
  }

  /** `n` successive `NextPassage` actions. */
  function Nexts(h: History, n: nat, size: nat, source: nat -> PassageInfo): History
    requires size >= 1
  {
    if n == 0 then h else Next(Nexts(h, n - 1, size, source), size, source)
  }

  /** After `n` fetches-or-replays from a new controller that only moved forward, the ring
      holds min(n, size) passages, the current index is the newest slot and, once the ring
      is full, the oldest passage is the one right after it. */
  lemma {:induction false} NextsFromNew(n: nat, size: nat, source: nat -> PassageInfo)
    requires n >= 1 && size >= 1
    ensures var h := Nexts(New(), n, size, source);
            Bounded(h, size) && !h.firstRun &&
            |h.passages| == (if n <= size then n else size) &&
            h.current == Wrap(n - 1, size) &&
            h.start == (if n <= size then 0 else Wrap(n, size)) &&
            h.fetched == n
  {
    if n > 1 {
      NextsFromNew(n - 1, size, source);
      var h := Nexts(New(), n - 1, size, source);
      if n <= size {
        FillStep(h, n - 1, size, source);
      } else {
        assert (n - 2) + 1 == n - 1;
        WrapSucc(n - 2, size);
        WrapStep(h.current, size);
        if n - 1 == size {
          assert Wrap(n - 1, size) == Wrap(0, size) == 0;
        }
        assert h.start == Wrap(n - 1, size);
        WrapSucc(n - 1, size);
        WrapStep(h.start, size);
        EvictStep(h, size, source);
      }
    } else {
      FirstNext(size, source);
    }
  }

  /** A step of `NextsFromNew` while the ring is filling up. */
  lemma FillStep(h: History, k: nat, size: nat, source: nat -> PassageInfo)
    requires Bounded(h, size) && !h.firstRun && 1 <= k < size
    requires |h.passages| == k && h.current == k - 1 && h.start == 0
    ensures var r := Next(h, size, source);
            Bounded(r, size) && !r.firstRun && |r.passages| == k + 1 &&
            r.current == k && r.start == 0 && r.fetched == h.fetched + 1
  {
    NextFillsEmptySlot(h, size, source);
    RetrieveKeepsBounded(h, NextPassage, size, source);
  }

  /** A step of `NextsFromNew` once the ring is full. */
  lemma EvictStep(h: History, size: nat, source: nat -> PassageInfo)
    requires Bounded(h, size) && !h.firstRun && |h.passages| == size
    requires Wrap(h.current + 1, size) == h.start
    ensures var r := Next(h, size, source);
            Bounded(r, size) && !r.firstRun && |r.passages| == size &&
            r.current == h.start && r.start == Wrap(h.start + 1, size) &&
            r.fetched == h.fetched + 1
  {
    NextEvictsOldest(h, size, source);
    RetrieveKeepsBounded(h, NextPassage, size, source);
  }

  /** With capacity 5, 4000 `NextPassage` actions leave exactly 5 passages. */
  lemma OverwriteExample(source: nat -> PassageInfo)
    ensures |Nexts(New(), 4000, 5, source).passages| == 5
  {
    NextsFromNew(4000, 5, source);
  }

  /** The history-integrity walk: going back twice and forward twice revisits the same
      passages, and distinct fetches give distinct passages. */
  lemma HistoryIntegrityExample(source: nat -> PassageInfo)
    requires forall i, j :: i != j ==> source(i) != source(j)
    ensures var h0 := Previous(Next(New(), 5, source), 5);
            var h1 := Next(h0, 5, source);
            var h2 := Next(h1, 5, source);
            var b1 := Previous(h2, 5);
            var b0 := Previous(b1, 5);
            var f1 := Next(b0, 5, source);
            var f2 := Next(f1, 5, source);
            Current(h0) == source(0) && Current(h1) == source(1) && Current(h2) == source(2) &&
            Current(b1) == source(1) && Current(b0) == source(0) &&
            Current(f1) == source(1) && Current(f2) == source(2) &&
            Current(h0) != Current(h1) && Current(h1) != Current(h2)
  {
  }

  /** The controller object of a session. */
  class Controller {
    var passages: seq<PassageInfo>
    var currentPassageIdx: nat
    const historySize: nat
    var startIdx: nat
    var firstRun: bool
    /** Number of passages fetched so far. */
    var fetched: nat
    /** The passage source: the n-th fetch returns `source(n)`. */
    const source: nat -> PassageInfo

    function Data(): History
      reads this
    {
      History(passages, currentPassageIdx, startIdx, firstRun, fetched)
    }

    /** The modulo over `history_size` needs a non-empty ring. */
    constructor (historySize: nat, source: nat -> PassageInfo)
      requires historySize >= 1
      ensures Data() == New() && this.historySize == historySize && this.source == source
      ensures Bounded(Data(), historySize)
    {
      passages := [];
      currentPassageIdx := 0;
      this.historySize := historySize;
      startIdx := 0;
      firstRun := true;
      fetched := 0;
      this.source := source;
    }

    /** `get_new_passage`, abstracted. */
    method GetNewPassage() returns (info: PassageInfo)
      modifies this`fetched
      ensures info == source(old(fetched)) && fetched == old(fetched) + 1
    {
      info := source(fetched);
      fetched := fetched + 1;
    }

    /** `retrieve_passage`. Restarting, quitting and going back read the current slot, so
        a passage must have been fetched or written first. */
    method RetrievePassage(action: Action) returns (info: PassageInfo)
      requires Inv(Data(), historySize)
      requires action != NextPassage ==> currentPassageIdx < |passages|
      modifies this
      ensures Data() == Retrieve(old(Data()), action, historySize, source)
      ensures Inv(Data(), historySize) && info == Current(Data())
    {
      RetrieveKeepsInv(Data(), action, historySize, source);
      match action
      case NextPassage =>
        info := RetrieveNextPassage();
      case PreviousPassage =>
        info := RetrievePreviousPassage();
      case RestartPassage =>
        info := passages[currentPassageIdx];
      case Quit =>
        info := passages[currentPassageIdx];
    }

    method RetrieveNextPassage() returns (info: PassageInfo)
      requires Inv(Data(), historySize)
      modifies this
      ensures Data() == Next(old(Data()), historySize, source)
      ensures Inv(Data(), historySize) && info == Current(Data())
    {
      RetrieveKeepsInv(Data(), NextPassage, historySize, source);
      if firstRun {
        firstRun := false;
        var newPassage := GetNewPassage();
        passages := passages + [newPassage];
      } else {
        Advance();
      }
      info := passages[currentPassageIdx];
    }

    /** The step of `retrieve_next_passage` after the first fetch: move forward round the
        ring, evicting the oldest passage when the ring is full. */
    method Advance()
      requires historySize >= 1 && !firstRun
      modifies this`currentPassageIdx, this`startIdx, this`passages, this`fetched
      ensures Data() == Next(old(Data()), historySize, source)
    {
      WrapIsMod(currentPassageIdx + 1, historySize);
      currentPassageIdx := (currentPassageIdx + 1) % historySize;
      if currentPassageIdx == startIdx {
        WrapIsMod(startIdx + 1, historySize);
        startIdx := (startIdx + 1) % historySize;
        var newPassage := GetNewPassage();
        passages := if |passages| < historySize then passages + [newPassage]
                    else passages[currentPassageIdx := newPassage];
      } else if |passages| < historySize && currentPassageIdx == |passages| {
        var newPassage := GetNewPassage();
        passages := passages + [newPassage];
      }
    }

    method RetrievePreviousPassage() returns (info: PassageInfo)
      requires Inv(Data(), historySize) && currentPassageIdx < |passages|
      modifies this
      ensures Data() == Previous(old(Data()), historySize)
      ensures Inv(Data(), historySize) && info == Current(Data())
    {
      RetrieveKeepsInv(Data(), PreviousPassage, historySize, source);
      if currentPassageIdx != startIdx {
        if currentPassageIdx != 0 {
          WrapIsMod(currentPassageIdx - 1, historySize);
          currentPassageIdx := (currentPassageIdx - 1) % historySize;
        } else {
          currentPassageIdx := historySize - 1;
        }
      }
      info := passages[currentPassageIdx];
    }

    method WriteInitialPassage(passage: string)
      requires Inv(Data(), historySize)
      modifies this
      ensures Data() == WithInitialPassage(old(Data()), passage)
      ensures Inv(Data(), historySize)
    {
      passages := passages + [PassageInfo(passage, "User input", "User input")];
    }
  }
}
