/** The system-prompt registry: per (backend, model) key, the current prompt
    and a newest-first history of the prompts saved under that key. */
module Prompts {
  import opened Text
  import opened Lists

  /** The pair the program joins as `configId::modelName`. */
  datatype Key = Key(configId: string, modelName: string)

  datatype HistoryEntry = HistoryEntry(prompt: string, timestamp: nat)

  /** How many versions are kept per key. */
  const MaxHistory: nat := 50

  /** Both stores, as the two persisted maps. */
  datatype PromptState = PromptState(prompts: map<Key, string>, history: map<Key, seq<HistoryEntry>>)

  /** A prompt as the program stores it: trimmed and not empty. */
  predicate IsStoredPrompt(p: string) {
    p != [] && IsTrimmed(p)
  }

  /** What every reachable state satisfies: stored prompts and history entries
      are trimmed and non-empty, and every history list has 1 to 50 entries. */
  predicate ValidState(st: PromptState) {
    && (forall k :: k in st.prompts ==> IsStoredPrompt(st.prompts[k]))
    && (forall k :: k in st.history ==>
          0 < |st.history[k]| <= MaxHistory &&
          forall i :: 0 <= i < |st.history[k]| ==> IsStoredPrompt(st.history[k][i].prompt))
  }

  /** `getSystemPrompt`: the stored prompt, or the empty string when there is none. */
  function Lookup(prompts: map<Key, string>, key: Key): (r: string)
    ensures key in prompts ==> r == prompts[key]
    ensures key !in prompts ==> r == []
  {
    if key in prompts then prompts[key] else []
  }

  /** `getPromptHistory`: the key's versions, or none. */
  function HistoryOf(history: map<Key, seq<HistoryEntry>>, key: Key): (r: seq<HistoryEntry>)
    ensures key in history ==> r == history[key]
    ensures key !in history ==> r == []
  {
    if key in history then history[key] else []
  }

  /** `unshift` followed by `slice(0, 50)`: the new entry first, then the
      newest 49 (or fewer) of the old entries. */
  function PushHistory(h: seq<HistoryEntry>, e: HistoryEntry): (r: seq<HistoryEntry>)
    ensures |r| == if |h| < MaxHistory then |h| + 1 else MaxHistory
    ensures r[0] == e
    ensures r[1..] == h[..|r| - 1]
  {
    var n := [e] + h;
    if |n| > MaxHistory then n[..MaxHistory] else n
  }

  /** The version number the history list shows for position `index` (newest is highest). */
  function VersionNumber(h: seq<HistoryEntry>, index: nat): (v: nat)
    requires index < |h|
    ensures 1 <= v <= |h|
    ensures index == 0 ==> v == |h|
    ensures index == |h| - 1 ==> v == 1
  {
    |h| - index
  }

  /** Newer entries show higher numbers, so no two entries share one. */
  lemma VersionNumbersOrdered(h: seq<HistoryEntry>, i: nat, j: nat)
    requires i < j < |h|
    ensures VersionNumber(h, i) > VersionNumber(h, j)
  {
  }

  /** Every number from 1 to the length of the list is shown for some entry. */
  lemma VersionNumberOnto(h: seq<HistoryEntry>, v: nat)
    requires 1 <= v <= |h|
    ensures VersionNumber(h, |h| - v) == v
  {
  }

  /** The prompt half of `setSystemPrompt`: a non-blank text is stored trimmed,
      a blank one deletes the key. */
  function StorePrompt(prompts: map<Key, string>, key: Key, text: string): map<Key, string> {
    if IsBlank(text) then prompts - {key} else prompts[key := Trim(text)]
  }

  /** `setSystemPrompt` with its call to `addPromptToHistory`. */
  function SaveOutcome(st: PromptState, key: Key, text: string, now: nat): PromptState {
    if IsBlank(text) then PromptState(StorePrompt(st.prompts, key, text), st.history)
    else
      var entry := HistoryEntry(Trim(text), now);
      PromptState(StorePrompt(st.prompts, key, text),
                  st.history[key := PushHistory(HistoryOf(st.history, key), entry)])
  }

  /** Set as Active: the chosen version becomes the current prompt; history is untouched. */
  function SetActiveOutcome(st: PromptState, key: Key, index: nat): PromptState
    requires index < |HistoryOf(st.history, key)|
  {
    PromptState(st.prompts[key := st.history[key][index].prompt], st.history)
  }

  /** The net effect of `deletePromptHistoryVersion` once confirmed. A missing
      key or an index out of range changes nothing. Otherwise the entry is
      spliced out; if it was the current prompt and versions remain, the new
      newest version is stored as current (through `setSystemPrompt`, whose
      history write the final save of the spliced list overwrites); if no
      versions remain, the key disappears from both maps. */
  function DeleteOutcome(st: PromptState, key: Key, index: nat): PromptState {
    if key !in st.history || index >= |st.history[key]| then st
    else
      var h := RemoveAt(st.history[key], index);
      var deletingActive := st.history[key][index].prompt == Lookup(st.prompts, key);
      if h == [] then PromptState(StorePrompt(st.prompts, key, []), st.history - {key})
      else if deletingActive then PromptState(StorePrompt(st.prompts, key, h[0].prompt), st.history[key := h])
      else PromptState(st.prompts, st.history[key := h])
  }

  lemma StoredPromptTrimsToItself(p: string)
    requires IsStoredPrompt(p)
    ensures !IsBlank(p) && Trim(p) == p
  {
    TrimOfTrimmed(p);
  }

  /** Saving a prompt. A non-blank text becomes the current prompt, trimmed,
      and is pushed onto the history: the new history starts with it, holds at
      most 50 entries, and continues with the old history's first 49 (or fewer).
      A blank text clears the current prompt and leaves the history as it was.
      Other keys are untouched either way. */
  lemma SavePromptSpec(st: PromptState, key: Key, text: string, now: nat)
    ensures var r := SaveOutcome(st, key, text, now);
            var old_h := HistoryOf(st.history, key);
            var new_h := HistoryOf(r.history, key);
            && (forall k :: k != key ==>
                  Lookup(r.prompts, k) == Lookup(st.prompts, k) &&
                  HistoryOf(r.history, k) == HistoryOf(st.history, k))
            && (!IsBlank(text) ==>
                  && Lookup(r.prompts, key) == Trim(text)
                  && 0 < |new_h| <= MaxHistory
                  && new_h[0] == HistoryEntry(Trim(text), now)
                  && new_h[1..] == old_h[..|new_h| - 1]
                  && |new_h| - 1 == (if |old_h| < MaxHistory then |old_h| else MaxHistory - 1))
            && (IsBlank(text) ==> Lookup(r.prompts, key) == [] && r.history == st.history)
  {
  }

  /** Saving keeps the registry's invariant. */
  lemma SaveKeepsValid(st: PromptState, key: Key, text: string, now: nat)
    requires ValidState(st)
    ensures ValidState(SaveOutcome(st, key, text, now))
  {
    if !IsBlank(text) {
      TrimNonBlank(text);
      var r := SaveOutcome(st, key, text, now);
      var h := r.history[key];
      var old_h := HistoryOf(st.history, key);
      forall i | 0 <= i < |h| ensures IsStoredPrompt(h[i].prompt) {
        if i > 0 {
          assert h[i] == h[1..][i - 1] == old_h[i - 1];
        }
      }
    }
  }

  /** History beyond 50 drops the oldest: pushing onto a full history keeps the
      newest 49 old entries and evicts the 50th. */
  lemma PushOntoFullEvictsOldest(h: seq<HistoryEntry>, e: HistoryEntry)
    requires |h| == MaxHistory
    ensures PushHistory(h, e) == [e] + h[..MaxHistory - 1]
  {
    var r := PushHistory(h, e);
    assert r == [e] + r[1..];
  }

  /** Deleting a version. A missing key or an index out of range changes
      nothing. Otherwise exactly the entry at `index` is removed and no version
      is added; when entries remain and the removed one was the current prompt,
      the newest remaining version becomes current, and when it was not, the
      current prompt is kept; when none remain, both the history key and the
      current prompt are gone. Other keys are untouched. */
  lemma DeleteVersionSpec(st: PromptState, key: Key, index: nat)
    requires ValidState(st)
    ensures var r := DeleteOutcome(st, key, index);
            var old_h := HistoryOf(st.history, key);
            var new_h := HistoryOf(r.history, key);
            && (forall k :: k != key ==>
                  Lookup(r.prompts, k) == Lookup(st.prompts, k) &&
                  HistoryOf(r.history, k) == HistoryOf(st.history, k))
            && (index >= |old_h| ==> r == st)
            && (index < |old_h| ==>
                  && new_h == RemoveAt(old_h, index)
                  && |new_h| == |old_h| - 1
                  && (new_h == [] ==> key !in r.history && key !in r.prompts)
                  && (new_h != [] && old_h[index].prompt == Lookup(st.prompts, key) ==>
                        Lookup(r.prompts, key) == new_h[0].prompt)
                  && (new_h != [] && old_h[index].prompt != Lookup(st.prompts, key) ==>
                        Lookup(r.prompts, key) == Lookup(st.prompts, key)))
  {
    if key in st.history && index < |st.history[key]| {
      var h := RemoveAt(st.history[key], index);
      if h != [] {
        assert h[0] in st.history[key];
        StoredPromptTrimsToItself(h[0].prompt);
      }
    }
  }

  /** Deleting keeps the registry's invariant. */
  lemma DeleteKeepsValid(st: PromptState, key: Key, index: nat)
    requires ValidState(st)
    ensures ValidState(DeleteOutcome(st, key, index))
  {
    if key in st.history && index < |st.history[key]| {
      var old_h := st.history[key];
      var h := RemoveAt(old_h, index);
      forall i | 0 <= i < |h| ensures IsStoredPrompt(h[i].prompt) {
        assert h[i] == old_h[if i < index then i else i + 1];
      }
      if h != [] {
        StoredPromptTrimsToItself(h[0].prompt);
      }
    }
  }

  /** Version numbers are positions counted from the oldest, so deleting an
      entry renumbers the newer ones: each entry before the deleted one loses
      one, the older ones keep theirs. */
  lemma DeleteRenumbers(h: seq<HistoryEntry>, index: nat, j: nat)
    requires index < |h| && j < |h| - 1
    ensures var r := RemoveAt(h, index);
            (j < index ==> r[j] == h[j] && VersionNumber(r, j) == VersionNumber(h, j) - 1)
            && (j >= index ==> r[j] == h[j + 1] && VersionNumber(r, j) == VersionNumber(h, j + 1))
  {
  }

  class PromptRegistry {
    var prompts: map<Key, string>
    var history: map<Key, seq<HistoryEntry>>

    function State(): PromptState
      reads this
    {
      PromptState(prompts, history)
    }

    ghost predicate Valid()
      reads this
    {
      ValidState(State())
    }

    constructor ()
      ensures Valid() && prompts == map[] && history == map[]
    {
      prompts, history := map[], map[];
    }

    /** `getSystemPrompt`. */
    function GetSystemPrompt(key: Key): (r: string)
      reads this
      requires Valid()
      ensures key in prompts ==> r == prompts[key]
      ensures r == [] <==> key !in prompts
      ensures r != [] ==> IsStoredPrompt(r)
    {
      Lookup(prompts, key)
    }

    /** `getPromptHistory`. */
    function GetPromptHistory(key: Key): (r: seq<HistoryEntry>)
      reads this
      requires Valid()
      ensures key in history ==> r == history[key]
      ensures |r| <= MaxHistory
      ensures r == [] <==> key !in history
    {
      HistoryOf(history, key)
    }

    /** `addPromptToHistory`: called with a trimmed, non-blank prompt. */
    method AddPromptToHistory(key: Key, prompt: string, now: nat)
      requires Valid() && IsStoredPrompt(prompt)
      modifies this
      ensures Valid()
      ensures prompts == old(prompts)
      ensures history == old(history)[key := PushHistory(HistoryOf(old(history), key), HistoryEntry(prompt, now))]
    {
      var h := if key in history then history[key] else [];
      h := [HistoryEntry(prompt, now)] + h;
      if |h| > MaxHistory {
        h := h[..MaxHistory];
      }
      history := history[key := h];
      assert forall i :: 1 <= i < |h| ==> h[i] == old(HistoryOf(history, key))[i - 1];
    }

    /** `setSystemPrompt`. */
    method SetSystemPrompt(key: Key, text: string, now: nat)
      requires Valid()
      modifies this
      ensures Valid()
      ensures State() == SaveOutcome(old(State()), key, text, now)
    {
      if !IsBlank(text) {
        TrimNonBlank(text);
        var p := Trim(text);
        prompts := prompts[key := p];
        AddPromptToHistory(key, p, now);
      } else {
        prompts := prompts - {key};
      }
    }

    /** The history list's Set as Active item for the version at `index`. */
    method SetActiveFromHistory(key: Key, index: nat)
      requires Valid() && index < |GetPromptHistory(key)|
      modifies this
      ensures Valid()
      ensures State() == SetActiveOutcome(old(State()), key, index)
    {
      prompts := prompts[key := history[key][index].prompt];
    }

    /** `deletePromptHistoryVersion`, confirmed. `now` is the clock reading of the
        `setSystemPrompt` call made when the current prompt is promoted. */
    method DeletePromptHistoryVersion(key: Key, index: nat, now: nat)
      requires Valid()
      modifies this
      ensures Valid()
      ensures State() == DeleteOutcome(old(State()), key, index)
    {
      var local: map<Key, seq<HistoryEntry>> := history;
      if key in local && index < |local[key]| {
        var currentSaved := Lookup(prompts, key);
        var deletingActive := local[key][index].prompt == currentSaved;
        local := local[key := RemoveAt(local[key], index)];
        if deletingActive && |local[key]| > 0 {
          var newActive := local[key][0].prompt;
          SetSystemPrompt(key, newActive, now);
        }
        if |local[key]| == 0 {
          local := local - {key};
          SetSystemPrompt(key, [], now);
        }
        DeleteKeepsValid(old(State()), key, index);
        history := local;
      }
    }
  }
}
