// bound_history of app/context_budget.py: the prompt is the recent end of the conversation,
// with long tool results shortened and the system message kept.
module ContextBudget {
  import opened Wrappers

  datatype Content = Text(s: string) | Structured(value: int)

  datatype Role = System | User | Assistant | Tool

  // A chat message; `extra` stands for its other keys.
  datatype Message = Message(role: Role, content: Content, extra: int)

  const MARKER := "\n...[tool result truncated in context]"

  predicate IsSystem(m: Message) {
    m.role == System
  }

  function Shorten(m: Message, resultChars: nat): Message {
    if m.role == Tool && m.content.Text? && |m.content.s| > resultChars
    then m.(content := Text(m.content.s[..resultChars] + MARKER))
    else m
  }

  function ShortenAll(history: seq<Message>, resultChars: nat): (r: seq<Message>)
    ensures |r| == |history| && forall i | 0 <= i < |r| :: r[i] == Shorten(history[i], resultChars)
  {
    seq(|history|, i requires 0 <= i < |history| => Shorten(history[i], resultChars))
  }

  // The slice s[-k:] for any integer k.
  function Tail<T>(s: seq<T>, k: int): seq<T> {
    if k > 0 then (if k >= |s| then s else s[|s| - k..])
    else (if -k >= |s| then [] else s[-k..])
  }

  // The system message in front, if there is one.
  function Front(b: seq<Message>): seq<Message> {
    if b != [] && IsSystem(b[0]) then [b[0]] else []
  }

  function KeepRecent(b: seq<Message>, maxMessages: int): seq<Message> {
    if |b| > maxMessages then Front(b) + Tail(b, maxMessages - |Front(b)|) else b
  }

  // The size of the prompt; `size` is the length of a message as JSON.
  function Total(b: seq<Message>, size: Message -> nat): nat {
    if b == [] then 0 else size(b[0]) + Total(b[1..], size)
  }

  function Within(maxChars: int, size: Message -> nat): seq<Message> -> bool {
    (b: seq<Message>) => Total(b, size) <= maxChars
  }

  // Trimming stops when the messages fit (for the source, within maxChars) or are two.
  predicate Done(b: seq<Message>, fits: seq<Message> -> bool) {
    fits(b) || |b| <= 2
  }

  // Remove the oldest message that is not a leading system message.
  function Pop(b: seq<Message>): (r: seq<Message>)
    requires |b| > 2
    ensures |r| == |b| - 1
  {
    if IsSystem(b[0]) then [b[0]] + b[2..] else b[1..]
  }

  function Trim(b: seq<Message>, fits: seq<Message> -> bool): (r: seq<Message>)
    ensures Done(r, fits) && |r| <= |b| && (|b| >= 2 ==> |r| >= 2) && (|b| < 2 ==> r == b)
    decreases |b|
  {
    if Done(b, fits) then b else Trim(Pop(b), fits)
  }

  function Bounded(history: seq<Message>, maxMessages: int, resultChars: nat, fits: seq<Message> -> bool): seq<Message>
  {
    if history == [] then []
    else Trim(KeepRecent(ShortenAll(history, resultChars), maxMessages), fits)
  }

  lemma PopCutsOut(b: seq<Message>, index: nat)
    requires |b| > 2 && index == if IsSystem(b[0]) then 1 else 0
    ensures b[..index] + b[index + 1..] == Pop(b)
  {}

  lemma KeptSlice(b: seq<Message>, maxMessages: int)
    requires |b| > maxMessages && b != []
    ensures var first := if IsSystem(b[0]) then b[..1] else [];
      first + Tail(b, maxMessages - |first|) == KeepRecent(b, maxMessages)
  {
    assert IsSystem(b[0]) ==> b[..1] == Front(b);
  }

  method BoundHistory(history: seq<Message>, maxMessages: int, maxChars: int, resultChars: nat,
                      size: Message -> nat) returns (bounded: seq<Message>)
    ensures bounded == Bounded(history, maxMessages, resultChars, Within(maxChars, size))
  {
    if history == [] {
      return history;
    }
    bounded := [];
    for i := 0 to |history|
      invariant bounded == ShortenAll(history[..i], resultChars)
    {
      bounded := bounded + [Shorten(history[i], resultChars)];
    }
    assert history[..|history|] == history;
    if |bounded| > maxMessages {
      var first := if IsSystem(bounded[0]) then bounded[..1] else [];
      KeptSlice(bounded, maxMessages);
      bounded := first + Tail(bounded, maxMessages - |first|);
    }
    ghost var recent := bounded;
    while Total(bounded, size) > maxChars && |bounded| > 2
      invariant Trim(bounded, Within(maxChars, size)) == Trim(recent, Within(maxChars, size))
      decreases |bounded|
    {
      var index := if IsSystem(bounded[0]) then 1 else 0;
      PopCutsOut(bounded, index);
      bounded := bounded[..index] + bounded[index + 1..];
    }
  }

  // ---- What the bound promises ----

  // The system message in front as an option.
  function Lead(b: seq<Message>): Option<Message> {
    if b != [] && IsSystem(b[0]) then Some(b[0]) else None
  }

  // The end of a conversation from place n on, behind a system message if there is one.
  function Behind(head: Option<Message>, short: seq<Message>, n: nat): (b: seq<Message>)
    requires n <= |short|
    ensures |b| == (if head.Some? then 1 else 0) + |short| - n
  {
    if head.Some? then [head.value] + short[n..] else short[n..]
  }

  function FirstKept(short: seq<Message>, maxMessages: int): nat {
    |Front(short)| + if |short| > maxMessages then |short| - maxMessages else 0
  }

  lemma {:induction false} RecentIsBehind(short: seq<Message>, maxMessages: int)
    requires short != [] && maxMessages >= 1 + |Front(short)|
    ensures KeepRecent(short, maxMessages) == Behind(Lead(short), short, FirstKept(short, maxMessages))
  {
    assert |Front(short)| == 1 ==> short == [short[0]] + short[1..];
  }

  // The first place from `from` on where the end of the conversation fits.
  function Fit(head: Option<Message>, short: seq<Message>, from: nat, fits: seq<Message> -> bool): (n: nat)
    requires from <= |short|
    ensures from <= n <= |short|
    decreases |short| - from
  {
    if Done(Behind(head, short, from), fits) then from else Fit(head, short, from + 1, fits)
  }

  lemma {:induction false} FitIsDone(head: Option<Message>, short: seq<Message>, from: nat, fits: seq<Message> -> bool)
    requires from <= |short|
    ensures Done(Behind(head, short, Fit(head, short, from, fits)), fits)
    decreases |short| - from
  {
    if !Done(Behind(head, short, from), fits) {
      FitIsDone(head, short, from + 1, fits);
    }
  }

  lemma {:induction false} FitIsFirst(head: Option<Message>, short: seq<Message>, from: nat, fits: seq<Message> -> bool, j: nat)
    requires from <= |short| && from <= j < Fit(head, short, from, fits)
    ensures !Done(Behind(head, short, j), fits)
    decreases |short| - from
  {
    if from < j {
      FitIsFirst(head, short, from + 1, fits, j);
    }
  }

  lemma {:induction false} PopBehind(system: Message, short: seq<Message>, from: nat)
    requires IsSystem(system) && from + 1 < |short|
    ensures Pop(Behind(Some(system), short, from)) == Behind(Some(system), short, from + 1)
  {
    assert Behind(Some(system), short, from)[2..] == short[from + 1..];
  }

  lemma {:induction false} PopFront(short: seq<Message>, from: nat)
    requires from + 2 < |short|
    ensures Pop(short[from..])
         == if IsSystem(short[from]) then Behind(Some(short[from]), short, from + 2) else short[from + 1..]
  {
    assert short[from..][2..] == short[from + 2..] && short[from..][1..] == short[from + 1..];
  }

  lemma HeadOfEnd(short: seq<Message>, n: nat)
    requires n < |short|
    ensures Behind(Some(short[n]), short, n + 1) == short[n..] == Behind(None, short, n)
  {}

  // With a system message in front, the messages behind it go one by one, whatever they are.
  lemma {:induction false} TrimBehindSystem(system: Message, short: seq<Message>, from: nat, fits: seq<Message> -> bool)
    requires IsSystem(system) && from <= |short|
    ensures Trim(Behind(Some(system), short, from), fits)
         == Behind(Some(system), short, Fit(Some(system), short, from, fits))
    decreases |short| - from
  {
    if !Done(Behind(Some(system), short, from), fits) {
      PopBehind(system, short, from);
      TrimBehindSystem(system, short, from + 1, fits);
    }
  }

  // The first system message from `from` on.
  function FirstSystem(short: seq<Message>, from: nat): (m: nat)
    requires from <= |short|
    ensures from <= m <= |short| && (m < |short| ==> IsSystem(short[m]))
    decreases |short| - from
  {
    if from == |short| || IsSystem(short[from]) then from else FirstSystem(short, from + 1)
  }

  // A system message further back comes to the front before the rest fits.
  predicate Pinned(short: seq<Message>, from: nat, fits: seq<Message> -> bool)
    requires from <= |short|
  {
    FirstSystem(short, from) < Fit(None, short, from, fits)
  }

  // What is left with that message pinned.
  function WithPinned(short: seq<Message>, m: nat, fits: seq<Message> -> bool): seq<Message>
    requires m < |short|
  {
    Behind(Some(short[m]), short, Fit(Some(short[m]), short, m + 1, fits))
  }

  lemma {:induction false} TrimAtSystem(short: seq<Message>, m: nat, fits: seq<Message> -> bool)
    requires m < |short| && IsSystem(short[m])
    ensures Trim(short[m..], fits)
         == if Done(short[m..], fits) then short[m..] else WithPinned(short, m, fits)
  {
    HeadOfEnd(short, m);
    TrimBehindSystem(short[m], short, m + 1, fits);
  }

  // Without a system message in front, the oldest message goes until the rest fits or a
  // system message has come to the front; that one is pinned, and the messages behind it
  // go instead.
  lemma {:induction false} TrimWithoutSystem(short: seq<Message>, from: nat, fits: seq<Message> -> bool)
    requires from <= |short|
    ensures Trim(short[from..], fits)
         == if Pinned(short, from, fits) then WithPinned(short, FirstSystem(short, from), fits)
            else short[Fit(None, short, from, fits)..]
    decreases |short| - from
  {
    if from < |short| && IsSystem(short[from]) {
      TrimAtSystem(short, from, fits);
    } else if !Done(short[from..], fits) {
      PopFront(short, from);
      TrimWithoutSystem(short, from + 1, fits);
    }
  }

  predicate Fits(b: seq<Message>, maxMessages: int, fits: seq<Message> -> bool) {
    |b| <= maxMessages && fits(b)
  }

  // The prompt is the system message, if any, and the recent part of the shortened
  // conversation from place n on; it respects both limits, except that two messages may
  // exceed the size limit, and no longer part does.
  ghost predicate LongestFrom(bounded: seq<Message>, short: seq<Message>, n: int, maxMessages: int, fits: seq<Message> -> bool)
  {
    && |Front(short)| <= n <= |short| && bounded == Behind(Lead(short), short, n)
    && |bounded| <= maxMessages && Done(bounded, fits)
    && forall j | |Front(short)| <= j < n :: !Fits(Behind(Lead(short), short, j), maxMessages, fits)
  }

  ghost predicate IsLongestRecentPart(bounded: seq<Message>, short: seq<Message>, maxMessages: int, fits: seq<Message> -> bool)
  {
    exists n :: LongestFrom(bounded, short, n, maxMessages, fits)
  }

  lemma {:induction false} FitIsLongest(short: seq<Message>, maxMessages: int, fits: seq<Message> -> bool)
    requires short != [] && maxMessages >= 1 + |Front(short)|
    ensures var n := Fit(Lead(short), short, FirstKept(short, maxMessages), fits);
      LongestFrom(Behind(Lead(short), short, n), short, n, maxMessages, fits)
  {
    var from := FirstKept(short, maxMessages);
    FitIsDone(Lead(short), short, from, fits);
    forall j: nat | |Front(short)| <= j < Fit(Lead(short), short, from, fits)
      ensures !Fits(Behind(Lead(short), short, j), maxMessages, fits)
    {
      if from <= j { FitIsFirst(Lead(short), short, from, fits, j); }
    }
  }

  // What the prompt is, for every conversation.
  function Prompt(short: seq<Message>, maxMessages: int, fits: seq<Message> -> bool): seq<Message>
    requires short != [] && maxMessages >= 1 + |Front(short)|
  {
    var from := FirstKept(short, maxMessages);
    if Lead(short).None? && Pinned(short, from, fits)
    then WithPinned(short, FirstSystem(short, from), fits)
    else Behind(Lead(short), short, Fit(Lead(short), short, from, fits))
  }

  lemma {:induction false} BoundedIsPrompt(history: seq<Message>, maxMessages: int, resultChars: nat, fits: seq<Message> -> bool)
    requires history != [] && maxMessages >= 1 + |Front(history)|
    ensures Bounded(history, maxMessages, resultChars, fits)
         == Prompt(ShortenAll(history, resultChars), maxMessages, fits)
  {
    var short := ShortenAll(history, resultChars);
    RecentIsBehind(short, maxMessages);
    if Lead(short).Some? {
      TrimBehindSystem(short[0], short, FirstKept(short, maxMessages), fits);
    } else {
      TrimWithoutSystem(short, FirstKept(short, maxMessages), fits);
    }
  }

  // A pinned message can still be the right one by coincidence: the message just before
  // the kept end equals it, and no longer end fits.
  predicate PinnedByChance(short: seq<Message>, m: nat, fits: seq<Message> -> bool)
    requires m < |short|
  {
    var k := Fit(Some(short[m]), short, m + 1, fits);
    short[k - 1] == short[m] && NoneFitsBetween(short, m, k - 1, fits)
  }

  predicate NoneFitsBetween(short: seq<Message>, m: nat, n: int, fits: seq<Message> -> bool)
    requires n <= |short|
  {
    forall j: nat | m < j < n :: !fits(Behind(None, short, j))
  }

  predicate NoneFitsUpTo(short: seq<Message>, m: nat, maxMessages: int, fits: seq<Message> -> bool)
    requires m < |short|
  {
    forall j: nat | j <= m :: !Fits(Behind(None, short, j), maxMessages, fits)
  }

  lemma {:induction false} PinnedPlace(short: seq<Message>, from: nat, fits: seq<Message> -> bool)
    requires from <= |short| && Pinned(short, from, fits)
    ensures var m := FirstSystem(short, from);
      m < |short| && m + 2 <= Fit(Some(short[m]), short, m + 1, fits)
  {
    var m := FirstSystem(short, from);
    FitIsFirst(None, short, from, fits, m);
    HeadOfEnd(short, m);
  }

  // No end that still holds the pinned message fits.
  lemma {:induction false} PinnedDoesNotFit(short: seq<Message>, m: nat, maxMessages: int, fits: seq<Message> -> bool)
    requires short != [] && !IsSystem(short[0]) && maxMessages >= 1
    requires Pinned(short, FirstKept(short, maxMessages), fits)
    requires m == FirstSystem(short, FirstKept(short, maxMessages)) && m < |short|
    ensures NoneFitsUpTo(short, m, maxMessages, fits)
  {
    forall j: nat | j <= m ensures !Fits(Behind(None, short, j), maxMessages, fits) {
      if FirstKept(short, maxMessages) <= j {
        FitIsFirst(None, short, FirstKept(short, maxMessages), fits, j);
      }
    }
  }

  lemma {:induction false} EndIsLongest(short: seq<Message>, m: nat, n: nat, maxMessages: int, fits: seq<Message> -> bool)
    requires short != [] && !IsSystem(short[0]) && m < n <= |short|
    requires |short| - n <= maxMessages && Done(short[n..], fits)
    requires NoneFitsUpTo(short, m, maxMessages, fits)
    requires NoneFitsBetween(short, m, n, fits)
    ensures LongestFrom(short[n..], short, n, maxMessages, fits)
  {
    forall j: nat | j < n ensures !Fits(Behind(None, short, j), maxMessages, fits) {
    }
  }

  lemma {:induction false} PinnedIsEnd(short: seq<Message>, m: nat, fits: seq<Message> -> bool)
    requires m < |short| && PinnedByChance(short, m, fits)
    ensures var k := Fit(Some(short[m]), short, m + 1, fits);
      WithPinned(short, m, fits) == short[k - 1..] && Done(short[k - 1..], fits)
  {
    HeadOfEnd(short, Fit(Some(short[m]), short, m + 1, fits) - 1);
    FitIsDone(Some(short[m]), short, m + 1, fits);
  }

  lemma {:induction false} ChanceSuffices(short: seq<Message>, m: nat, n: nat, maxMessages: int, fits: seq<Message> -> bool)
    requires short != [] && !IsSystem(short[0]) && m < n <= |short| && |short| - n <= maxMessages
    requires n == Fit(Some(short[m]), short, m + 1, fits) - 1
    requires NoneFitsUpTo(short, m, maxMessages, fits) && PinnedByChance(short, m, fits)
    ensures LongestFrom(WithPinned(short, m, fits), short, n, maxMessages, fits)
  {
    PinnedIsEnd(short, m, fits);
    EndIsLongest(short, m, n, maxMessages, fits);
  }

  lemma {:induction false} ChanceIsNeeded(short: seq<Message>, m: nat, n: int, maxMessages: int, fits: seq<Message> -> bool)
    requires short != [] && !IsSystem(short[0]) && maxMessages >= 1
    requires FirstKept(short, maxMessages) <= m < |short|
    requires m + 2 <= Fit(Some(short[m]), short, m + 1, fits)
    requires LongestFrom(WithPinned(short, m, fits), short, n, maxMessages, fits)
    ensures PinnedByChance(short, m, fits)
  {
    var k := Fit(Some(short[m]), short, m + 1, fits);
    var bounded := WithPinned(short, m, fits);
    assert |bounded| == 1 + |short| - k && |bounded| == |short| - n;
    assert short[n..][0] == bounded[0];
    forall j: nat | m < j < k - 1 ensures !fits(Behind(None, short, j)) {
      assert !Fits(Behind(None, short, j), maxMessages, fits);
    }
  }

  lemma {:induction false} KeptIsShort(short: seq<Message>, m: nat, maxMessages: int)
    requires short != [] && !IsSystem(short[0]) && FirstKept(short, maxMessages) <= m
    ensures |short| - m <= maxMessages
  {}

  lemma {:induction false} ChanceIff(short: seq<Message>, m: nat, maxMessages: int, fits: seq<Message> -> bool)
    requires short != [] && !IsSystem(short[0]) && maxMessages >= 1 && m < |short| && |short| - m <= maxMessages
    requires FirstKept(short, maxMessages) <= m && m + 2 <= Fit(Some(short[m]), short, m + 1, fits)
    requires NoneFitsUpTo(short, m, maxMessages, fits)
    ensures IsLongestRecentPart(WithPinned(short, m, fits), short, maxMessages, fits)
       <==> PinnedByChance(short, m, fits)
  {
    if PinnedByChance(short, m, fits) {
      ChanceSuffices(short, m, Fit(Some(short[m]), short, m + 1, fits) - 1, maxMessages, fits);
    } else if n :| LongestFrom(WithPinned(short, m, fits), short, n, maxMessages, fits) {
      ChanceIsNeeded(short, m, n, maxMessages, fits);
    }
  }

  lemma {:induction false} PinnedIff(short: seq<Message>, m: nat, maxMessages: int, fits: seq<Message> -> bool)
    requires short != [] && !IsSystem(short[0]) && maxMessages >= 1
    requires Pinned(short, FirstKept(short, maxMessages), fits)
    requires m == FirstSystem(short, FirstKept(short, maxMessages)) && m < |short|
    requires m + 2 <= Fit(Some(short[m]), short, m + 1, fits)
    ensures IsLongestRecentPart(WithPinned(short, m, fits), short, maxMessages, fits)
       <==> PinnedByChance(short, m, fits)
  {
    PinnedDoesNotFit(short, m, maxMessages, fits);
    KeptIsShort(short, m, maxMessages);
    ChanceIff(short, m, maxMessages, fits);
  }

  lemma {:induction false} UnpinnedIsLongest(short: seq<Message>, maxMessages: int, fits: seq<Message> -> bool)
    requires short != [] && maxMessages >= 1 + |Front(short)|
    requires IsSystem(short[0]) || !Pinned(short, FirstKept(short, maxMessages), fits)
    ensures IsLongestRecentPart(Prompt(short, maxMessages, fits), short, maxMessages, fits)
  {
    FitIsLongest(short, maxMessages, fits);
  }

  lemma {:induction false} PromptIsLongestIff(short: seq<Message>, maxMessages: int, fits: seq<Message> -> bool)
    requires short != [] && maxMessages >= 1 + |Front(short)|
    ensures IsLongestRecentPart(Prompt(short, maxMessages, fits), short, maxMessages, fits)
       <==> IsSystem(short[0]) || UnpinnedOrByChance(short, FirstKept(short, maxMessages), fits)
  {
    var from := FirstKept(short, maxMessages);
    if IsSystem(short[0]) || !Pinned(short, from, fits) {
      UnpinnedIsLongest(short, maxMessages, fits);
    } else {
      PinnedPlace(short, from, fits);
      PinnedIff(short, FirstSystem(short, from), maxMessages, fits);
    }
  }

  predicate UnpinnedOrByChance(short: seq<Message>, from: nat, fits: seq<Message> -> bool)
    requires from <= |short|
  {
    !Pinned(short, from, fits)
    || (FirstSystem(short, from) < |short| && PinnedByChance(short, FirstSystem(short, from), fits))
  }

  // The prompt is the longest recent part exactly when the conversation starts with a
  // system message (whatever follows), no later system message is pinned, or it is so by
  // chance.
  lemma {:induction false} LongestRecentPartIff(history: seq<Message>, maxMessages: int, resultChars: nat,
                                                fits: seq<Message> -> bool)
    requires history != [] && maxMessages >= 1 + |Front(history)|
    ensures var short := ShortenAll(history, resultChars);
      IsLongestRecentPart(Bounded(history, maxMessages, resultChars, fits), short, maxMessages, fits)
      <==> IsSystem(history[0]) || UnpinnedOrByChance(short, FirstKept(short, maxMessages), fits)
  {
    BoundedIsPrompt(history, maxMessages, resultChars, fits);
    PromptIsLongestIff(ShortenAll(history, resultChars), maxMessages, fits);
  }

  // In particular it is for every conversation that has no system message but in front.
  predicate SystemOnlyInFront(history: seq<Message>) {
    forall i | 0 < i < |history| :: !IsSystem(history[i])
  }

  lemma {:induction false} NothingToPin(history: seq<Message>, resultChars: nat, from: nat, fits: seq<Message> -> bool)
    requires history != [] && !IsSystem(history[0]) && SystemOnlyInFront(history) && from <= |history|
    ensures UnpinnedOrByChance(ShortenAll(history, resultChars), from, fits)
  {
  }

  lemma {:induction false} LongestRecentPart(history: seq<Message>, maxMessages: int, resultChars: nat,
                                             fits: seq<Message> -> bool)
    requires history != [] && maxMessages >= 1 + |Front(history)|
    requires IsSystem(history[0]) || SystemOnlyInFront(history)
    ensures IsLongestRecentPart(Bounded(history, maxMessages, resultChars, fits),
                                ShortenAll(history, resultChars), maxMessages, fits)
  {
    var short := ShortenAll(history, resultChars);
    LongestRecentPartIff(history, maxMessages, resultChars, fits);
    if !IsSystem(history[0]) {
      NothingToPin(history, resultChars, FirstKept(short, maxMessages), fits);
    }
  }

  // The failing case in its smallest form: of u, s, v, t the older system message s stays
  // and v goes, although v is more recent.
  lemma LaterSystemMessageIsPinned(u: Message, s: Message, v: Message, t: Message, fits: seq<Message> -> bool)
    requires !IsSystem(u) && IsSystem(s)
    requires !fits([u, s, v, t]) && !fits([s, v, t])
    ensures Trim([u, s, v, t], fits) == [s, t]
  {
    assert Pop([u, s, v, t]) == [s, v, t];
    assert Pop([s, v, t]) == [s, t];
    assert Trim([s, v, t], fits) == Trim([s, t], fits);
  }

  // The message limit is respected exactly when it leaves room for one message beside the
  // system message, or is not reached at all. (A limit equal to the front makes the slice
  // s[-0:], which is everything.)
  lemma MessageLimitKept(history: seq<Message>, maxMessages: int, resultChars: nat, fits: seq<Message> -> bool)
    requires history != []
    ensures |Bounded(history, maxMessages, resultChars, fits)| <= maxMessages
       <==> |history| <= maxMessages || maxMessages >= 1 + |Front(history)|
  {
    var short := ShortenAll(history, resultChars);
    assert |Front(short)| == |Front(history)|;
  }

  // The failing case: with room for the system message alone, the slice s[-0:] repeats the
  // whole conversation behind it, and at least two messages are kept.
  lemma LimitOfOneIsExceeded(system: Message, question: Message, resultChars: nat, fits: seq<Message> -> bool)
    requires IsSystem(system) && question.role == User
    ensures Bounded([system, question], 1, resultChars, fits)
         == if fits([system, system, question]) then [system, system, question] else [system, question]
  {
    var short, repeated := [system, question], [system, system, question];
    assert ShortenAll(short, resultChars) == short;
    assert KeepRecent(short, 1) == repeated by {
      assert Tail(short, 0) == short;
    }
    assert repeated[2..] == [question];
    assert Pop(repeated) == short && Trim(short, fits) == short;
    assert Trim(repeated, fits) == if fits(repeated) then repeated else short;
  }

  // ---- Bounding again ----

  lemma {:induction false} TrimKeeps(b: seq<Message>, fits: seq<Message> -> bool)
    ensures forall m | m in Trim(b, fits) :: m in b
    decreases |b|
  {
    if !Done(b, fits) {
      TrimKeeps(Pop(b), fits);
    }
  }

  lemma {:induction false} BoundedIsShort(history: seq<Message>, maxMessages: int, resultChars: nat, fits: seq<Message> -> bool)
    ensures var once := Bounded(history, maxMessages, resultChars, fits);
      ShortenAll(once, resultChars) == once
  {
    if history != [] {
      var short := ShortenAll(history, resultChars);
      var once := Bounded(history, maxMessages, resultChars, fits);
      TrimKeeps(KeepRecent(short, maxMessages), fits);
      forall m | m in once ensures Shorten(m, resultChars) == m {
        assert m in short;
        var i :| 0 <= i < |short| && short[i] == m;
      }
      assert forall i | 0 <= i < |once| :: once[i] in once;
    }
  }

  // Bounding a bounded history changes nothing.
  lemma BoundingTwice(history: seq<Message>, maxMessages: int, resultChars: nat, fits: seq<Message> -> bool)
    requires |history| <= maxMessages || maxMessages >= 1 + |Front(history)|
    ensures var once := Bounded(history, maxMessages, resultChars, fits);
      Bounded(once, maxMessages, resultChars, fits) == once
  {
    if history != [] {
      BoundedIsShort(history, maxMessages, resultChars, fits);
      MessageLimitKept(history, maxMessages, resultChars, fits);
    }
  }
}
