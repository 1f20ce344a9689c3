/** The message and character window of a conversation (`trim_history`). */
module HistoryWindow {
  import opened Wrappers

  datatype Message = Message(role: string, content: string)

  /** A message with the timestamp the parallel list holds for it. */
  datatype Entry = Entry(message: Message, stamp: Option<string>)

  datatype Limits = Limits(maxMessages: nat, maxChars: nat, maxConversations: nat)

  /** The two parallel lists read as one; a timestamp that is missing at the end reads as `None`. */
  function Align(history: seq<Message>, stamps: seq<Option<string>>): (entries: seq<Entry>)
    ensures |entries| == |history|
  {
    seq(|history|, i requires 0 <= i < |history| => Entry(history[i], if i < |stamps| then stamps[i] else None))
  }

  function Chars(entries: seq<Entry>): nat {
    if entries == [] then 0 else |entries[0].message.content| + Chars(entries[1..])
  }

  predicate Fits(limits: Limits, entries: seq<Entry>) {
    |entries| <= limits.maxMessages && Chars(entries) <= limits.maxChars
  }

  function Newest(entries: seq<Entry>, k: nat): seq<Entry>
    requires k <= |entries|
  {
    entries[|entries| - k..]
  }

  /** The characters of the `k` newest entries. */
  function CharsKept(entries: seq<Entry>, k: nat): nat
    requires k <= |entries|
  {
    Chars(Newest(entries, k))
  }

  /** The characters of the entry before the `k` newest ones. */
  function NextChars(entries: seq<Entry>, k: nat): nat
    requires k < |entries|
  {
    |entries[|entries| - 1 - k].message.content|
  }

  /** How many entries a scan from the newest keeps when it has kept `k` already. */
  function Scan(limits: Limits, entries: seq<Entry>, k: nat): (r: nat)
    requires k <= |entries|
    ensures k <= r <= |entries|
    decreases |entries| - k
  {
    if k == |entries| || (limits.maxMessages > 0 && k == limits.maxMessages) then k
    else if k > 0 && CharsKept(entries, k) + NextChars(entries, k) > limits.maxChars then k
    else Scan(limits, entries, k + 1)
  }

  function Trim(limits: Limits, entries: seq<Entry>): seq<Entry> {
    if limits.maxMessages == 0 || limits.maxChars == 0 then []
    else Newest(entries, Scan(limits, entries, 0))
  }

  // ---- Trimming as the source does it, on two parallel lists ----

  method HistoryWithinLimits(limits: Limits, history: seq<Message>) returns (ok: bool)
    ensures ok == Fits(limits, Align(history, []))
  {
    if |history| > limits.maxMessages {
      return false;
    }
    var total := 0;
    for i := 0 to |history|
      invariant total + Chars(Align(history, [])[i..]) == Chars(Align(history, []))
    {
      total := total + |history[i].content|;
      assert Align(history, [])[i..][1..] == Align(history, [])[i + 1..];
    }
    return total <= limits.maxChars;
  }

  /** `trim_to_char_budget`; a message limit of 0 means no message limit here. */
  method TrimToCharBudget(limits: Limits, history: seq<Message>, stamps: seq<Option<string>>)
    returns (kept: seq<Message>, keptStamps: seq<Option<string>>)
    ensures |keptStamps| == |kept|
    ensures var entries := Align(history, stamps);
      Align(kept, keptStamps) == Newest(entries, Scan(limits, entries, 0))
  {
    var tail := Tail(limits, history);
    ghost var entries := Align(history, stamps);
    ghost var target := Scan(limits, entries, 0);
    kept := [];
    var keptIdx: seq<int> := [];
    var totalChars := 0;
    var j := 0;
    while j < |tail|
      invariant j <= |tail| && |kept| == j && Kept(history, kept, keptIdx)
      invariant totalChars == CharsKept(entries, j)
      invariant Scan(limits, entries, j) == target
    {
      var message := tail[|tail| - 1 - j];
      TailMessage(limits, history, stamps, j);
      if kept != [] && totalChars + |message.content| > limits.maxChars {
        ScanStops(limits, entries, j);
        break;
      }
      NewestStep(entries, j);
      ScanStep(limits, entries, j);
      kept, keptIdx := KeepNext(history, kept, keptIdx);
      totalChars := totalChars + |message.content|;
      j := j + 1;
    }
    if j == |tail| {
      ScanStops(limits, entries, j);
    }
    keptStamps := StampsAt(stamps, keptIdx);
    AlignNewest(history, stamps, kept, keptIdx);
  }

  /** `kept` is the end of `history`, and `idx` lists the places it comes from. */
  predicate Kept(history: seq<Message>, kept: seq<Message>, idx: seq<int>) {
    && |idx| == |kept| <= |history|
    && kept == history[|history| - |kept|..] && CountsFrom(idx, |history| - |kept|)
  }

  /** One trip of the backward scan: keep the message before those kept so far. */
  method KeepNext(history: seq<Message>, kept: seq<Message>, idx: seq<int>)
    returns (kept': seq<Message>, idx': seq<int>)
    requires Kept(history, kept, idx) && |kept| < |history|
    ensures Kept(history, kept', idx') && |kept'| == |kept| + 1
  {
    var place := |history| - 1 - |kept|;
    kept', idx' := [history[place]] + kept, [place] + idx;
  }

  predicate CountsFrom(idx: seq<int>, first: int) {
    forall i :: 0 <= i < |idx| ==> idx[i] == first + i
  }

  function StampsAt(stamps: seq<Option<string>>, idx: seq<int>): seq<Option<string>> {
    seq(|idx|, i requires 0 <= i < |idx| => if 0 <= idx[i] < |stamps| then stamps[idx[i]] else None)
  }

  /** The newest messages within the message limit; a limit of 0 is no limit. */
  function Tail(limits: Limits, history: seq<Message>): (tail: seq<Message>)
    ensures |tail| == if 0 < limits.maxMessages < |history| then limits.maxMessages else |history|
  {
    if 0 < limits.maxMessages < |history| then history[|history| - limits.maxMessages..] else history
  }

  lemma TailMessage(limits: Limits, history: seq<Message>, stamps: seq<Option<string>>, j: nat)
    requires j < |Tail(limits, history)|
    ensures |Tail(limits, history)[|Tail(limits, history)| - 1 - j].content| == NextChars(Align(history, stamps), j)
  {
  }

  /** The scan goes on past `j` kept entries. */
  lemma ScanStep(limits: Limits, entries: seq<Entry>, j: nat)
    requires j < |entries| && (limits.maxMessages > 0 ==> j != limits.maxMessages)
    requires j > 0 ==> CharsKept(entries, j) + NextChars(entries, j) <= limits.maxChars
    ensures Scan(limits, entries, j) == Scan(limits, entries, j + 1)
  {
  }

  /** The scan stops at `j` kept entries. */
  lemma ScanStops(limits: Limits, entries: seq<Entry>, j: nat)
    requires j <= |entries|
    requires || j == |entries| || (limits.maxMessages > 0 && j == limits.maxMessages)
             || (j > 0 && CharsKept(entries, j) + NextChars(entries, j) > limits.maxChars)
    ensures Scan(limits, entries, j) == j
  {
  }

  lemma NewestStep(entries: seq<Entry>, k: nat)
    requires k < |entries|
    ensures CharsKept(entries, k + 1) == NextChars(entries, k) + CharsKept(entries, k)
  {
    assert Newest(entries, k + 1)[1..] == Newest(entries, k);
  }

  lemma AlignNewest(history: seq<Message>, stamps: seq<Option<string>>, kept: seq<Message>, idx: seq<int>)
    requires Kept(history, kept, idx)
    ensures |StampsAt(stamps, idx)| == |kept|
    ensures Align(kept, StampsAt(stamps, idx)) == Newest(Align(history, stamps), |kept|)
  {
  }

  /** `trim_history` on the lists of one conversation. */
  method TrimHistory(limits: Limits, history: seq<Message>, stamps: seq<Option<string>>)
    returns (kept: seq<Message>, keptStamps: seq<Option<string>>)
    ensures |keptStamps| == |kept|
    ensures Align(kept, keptStamps) == Trim(limits, Align(history, stamps))
  {
    if limits.maxMessages == 0 || limits.maxChars == 0 {
      return [], [];
    }
    var fits := HistoryWithinLimits(limits, history);
    if fits {
      kept := history;
      keptStamps := seq(|history|, i requires 0 <= i < |history| => if i < |stamps| then stamps[i] else None);
      ghost var entries := Align(history, stamps);
      CharsIgnoreStamps(history, [], stamps);
      FittingIsKept(limits, entries, |entries|);
      assert Align(kept, keptStamps) == entries;
      return;
    }
    kept, keptStamps := TrimToCharBudget(limits, history, stamps);
  }

  lemma {:induction false} CharsIgnoreStamps(history: seq<Message>, a: seq<Option<string>>, b: seq<Option<string>>)
    ensures Chars(Align(history, a)) == Chars(Align(history, b))
    decreases |history|
  {
    if history != [] {
      var a', b' := if a == [] then [] else a[1..], if b == [] then [] else b[1..];
      assert Align(history, a)[1..] == Align(history[1..], a');
      assert Align(history, b)[1..] == Align(history[1..], b');
      CharsIgnoreStamps(history[1..], a', b');
    }
  }

  // ---- What the window is ----

  /** Keeping `k` of the newest entries is right: they fit, or are one oversized entry, and
      one more would not fit. */
  predicate IsWindow(limits: Limits, entries: seq<Entry>, k: nat) {
    && k <= |entries|
    && (entries != [] ==> k > 0)
    && (k == 1 || Fits(limits, Newest(entries, k)))
    && (k < |entries| ==> !Fits(limits, Newest(entries, k + 1)))
  }

  lemma {:induction false} CharsConcat(a: seq<Entry>, b: seq<Entry>)
    ensures Chars(a + b) == Chars(a) + Chars(b)
  {
    if a == [] {
      assert a + b == b;
    } else {
      assert (a + b)[1..] == a[1..] + b;
      CharsConcat(a[1..], b);
    }
  }

  /** A shorter run of newest entries fits whenever a longer one does. */
  lemma FewerFit(limits: Limits, entries: seq<Entry>, k: nat, m: nat)
    requires k <= m <= |entries| && Fits(limits, Newest(entries, m))
    ensures Fits(limits, Newest(entries, k))
  {
    var dropped := entries[|entries| - m..|entries| - k];
    assert Newest(entries, m) == dropped + Newest(entries, k);
    CharsConcat(dropped, Newest(entries, k));
  }

  lemma {:induction false} ScanIsWindow(limits: Limits, entries: seq<Entry>, k: nat)
    requires limits.maxMessages > 0 && k <= |entries| && k <= limits.maxMessages
    requires k <= 1 || Fits(limits, Newest(entries, k))
    ensures IsWindow(limits, entries, Scan(limits, entries, k))
    decreases |entries| - k
  {
    if k < |entries| {
      NewestStep(entries, k);
      if k < limits.maxMessages && (k == 0 || Chars(Newest(entries, k + 1)) <= limits.maxChars) {
        ScanIsWindow(limits, entries, k + 1);
      }
    } else if k == 0 {
      assert Newest(entries, 0) == [];
    }
  }

  lemma WindowUnique(limits: Limits, entries: seq<Entry>, j: nat, k: nat)
    requires IsWindow(limits, entries, j) && IsWindow(limits, entries, k)
    ensures j == k
  {
    if j < k {
      FewerFit(limits, entries, j + 1, k);
    } else if k < j {
      FewerFit(limits, entries, k + 1, j);
    }
  }

  /** The scan keeps all of any run of newest entries that fits. */
  lemma FittingIsKept(limits: Limits, entries: seq<Entry>, m: nat)
    requires limits.maxMessages > 0 && m <= |entries| && Fits(limits, Newest(entries, m))
    ensures m <= Scan(limits, entries, 0)
  {
    ScanIsWindow(limits, entries, 0);
    var k := Scan(limits, entries, 0);
    if k < m {
      FewerFit(limits, entries, k + 1, m);
    }
  }

  // ---- The main results ----

  /** Trimming keeps the longest run of newest entries within both limits, or the newest entry
      alone when that entry by itself is over the character limit. */
  lemma TrimKeepsLongestRun(limits: Limits, entries: seq<Entry>)
    requires limits.maxMessages > 0 && limits.maxChars > 0
    ensures var k := |Trim(limits, entries)|;
      && k <= |entries| && Trim(limits, entries) == Newest(entries, k)
      && (Fits(limits, Trim(limits, entries))
          || (k == 1 && |entries[|entries| - 1].message.content| > limits.maxChars))
      && forall m :: k < m <= |entries| ==> !Fits(limits, Newest(entries, m))
  {
    ScanIsWindow(limits, entries, 0);
    var k := Scan(limits, entries, 0);
    if k == 1 {
      assert Newest(entries, 1) == [entries[|entries| - 1]];
      assert Chars(Newest(entries, 1)) == |entries[|entries| - 1].message.content|;
    }
    forall m | k < m <= |entries| ensures !Fits(limits, Newest(entries, m)) {
      if Fits(limits, Newest(entries, m)) {
        FewerFit(limits, entries, k + 1, m);
      }
    }
  }

  /** The window is empty exactly if there is nothing to keep or a limit of zero. */
  lemma TrimIsEmptyIff(limits: Limits, entries: seq<Entry>)
    ensures Trim(limits, entries) == [] <==> entries == [] || limits.maxMessages == 0 || limits.maxChars == 0
  {
    if limits.maxMessages > 0 && limits.maxChars > 0 {
      ScanIsWindow(limits, entries, 0);
    }
  }

  /** Trimming early loses nothing: entries added later see the same window. */
  lemma TrimThenAppend(limits: Limits, log: seq<Entry>, added: seq<Entry>)
    ensures Trim(limits, Trim(limits, log) + added) == Trim(limits, log + added)
  {
    if limits.maxMessages > 0 && limits.maxChars > 0 {
      var w := Scan(limits, log, 0);
      var k := Scan(limits, log + added, 0);
      WindowReach(limits, log, added);
      SameNewest(log, added, w, k);
      ScanIsWindow(limits, log + added, 0);
      if k < w + |added| {
        SameNewest(log, added, w, k + 1);
      }
      assert IsWindow(limits, Newest(log, w) + added, k);
      ScanIsWindow(limits, Newest(log, w) + added, 0);
      WindowUnique(limits, Newest(log, w) + added, k, Scan(limits, Newest(log, w) + added, 0));
    }
  }

  lemma SameNewest(log: seq<Entry>, added: seq<Entry>, w: nat, k: nat)
    requires w <= |log| && k <= w + |added|
    ensures Newest(Newest(log, w) + added, k) == Newest(log + added, k)
  {
  }

  lemma WindowReach(limits: Limits, log: seq<Entry>, added: seq<Entry>)
    requires limits.maxMessages > 0
    ensures Scan(limits, log + added, 0) <= Scan(limits, log, 0) + |added|
  {
    var long := log + added;
    var k := Scan(limits, long, 0);
    ScanIsWindow(limits, long, 0);
    ScanIsWindow(limits, log, 0);
    if k > |added| && k != 1 {
      var m := k - |added|;
      assert Newest(long, k) == Newest(log, m) + added;
      CharsConcat(Newest(log, m), added);
      FittingIsKept(limits, log, m);
    }
  }

  lemma TrimWhole(limits: Limits, entries: seq<Entry>)
    requires limits.maxMessages > 0 && limits.maxChars > 0 && Fits(limits, entries)
    ensures Trim(limits, entries) == entries
  {
    assert Newest(entries, |entries|) == entries;
    FittingIsKept(limits, entries, |entries|);
  }

  lemma TrimIdempotent(limits: Limits, entries: seq<Entry>)
    ensures Trim(limits, Trim(limits, entries)) == Trim(limits, entries)
  {
    TrimThenAppend(limits, entries, []);
    assert entries + [] == entries;
    assert Trim(limits, entries) + [] == Trim(limits, entries);
  }

  /** The window after each turn of `turns` is appended and trimmed in order. */
  function Windowed(limits: Limits, turns: seq<seq<Entry>>): seq<Entry> {
    if turns == [] then []
    else Trim(limits, Windowed(limits, turns[..|turns| - 1]) + turns[|turns| - 1])
  }

  function Flatten(turns: seq<seq<Entry>>): seq<Entry> {
    if turns == [] then [] else Flatten(turns[..|turns| - 1]) + turns[|turns| - 1]
  }

  /** Trimming after every turn gives the window of the whole unbounded log. */
  lemma {:induction false} WindowIsTrimmedLog(limits: Limits, turns: seq<seq<Entry>>)
    ensures Windowed(limits, turns) == Trim(limits, Flatten(turns))
  {
    if turns == [] {
      assert Trim(limits, []) == [];
    } else {
      var before := turns[..|turns| - 1];
      WindowIsTrimmedLog(limits, before);
      TrimThenAppend(limits, Flatten(before), turns[|turns| - 1]);
    }
  }
}
