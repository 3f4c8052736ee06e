/**
 The terminal client's reducer: command-line editor, command history, pending approval and bounded event log. The
 editor's cursor is a byte offset into UTF-8 text that advances by one per typed character.
 */
module Tui {
  import opened Common

  // Rust strings, addressed by byte.

  function Width(c: char): nat {
    if c < '\U{80}' then 1 else if c < '\U{800}' then 2 else if c < '\U{10000}' then 3 else 4
  }

  predicate Ascii(c: char) {
    c as int < 128
  }

  predicate IsAscii(s: string) {
    forall i :: 0 <= i < |s| ==> Ascii(s[i])
  }

  function Pow2(n: nat): nat {
    if n == 0 then 1 else 2 * Pow2(n - 1)
  }

  /** The bits that a UTF-8 sequence of `n` bytes leaves for the code point: 7 in a single byte, otherwise 7 - n in the
      first byte and 6 in each that follows. */
  function PayloadBits(n: nat): nat
    requires 1 <= n <= 4
  {
    if n == 1 then 7 else 7 - n + 6 * (n - 1)
  }

  /** A character takes the fewest bytes that hold its code point. */
  lemma WidthIsShortestEncoding(c: char, n: nat)
    requires 1 <= n <= 4
    ensures 1 <= Width(c) <= 4
    ensures Width(c) <= n <==> c as int < Pow2(PayloadBits(n))
    ensures Width(c) == 1 <==> Ascii(c)
  {
    assert Pow2(7) == 128;
    assert Pow2(11) == 16 * Pow2(7);
    assert Pow2(16) == 32 * Pow2(11);
    assert Pow2(21) == 32 * Pow2(16);
  }

  function ByteLen(s: string): nat {
    if s == [] then 0 else Width(s[0]) + ByteLen(s[1..])
  }

  /** The character that starts at byte `p`, or the end of the text; None inside a character or past the end. */
  function CharAt(s: string, p: nat): (k: Option<nat>)
    ensures k.Some? ==> k.value <= |s|
  {
    if p == 0 then Some(0)
    else if s == [] || p < Width(s[0]) then None
    else
      var k := CharAt(s[1..], p - Width(s[0]));
      if k.Some? then Some(k.value + 1) else None
  }

  /** `String::insert` and `String::remove`; None is a panic. */
  function Insert(s: string, p: nat, c: char): Option<string> {
    var k := CharAt(s, p);
    if k.None? then None else Some(s[..k.value] + [c] + s[k.value..])
  }

  function Remove(s: string, p: nat): Option<string> {
    var k := CharAt(s, p);
    if k.None? || k.value == |s| then None else Some(s[..k.value] + s[k.value + 1..])
  }

  lemma {:induction false} ByteLenAppend(a: string, b: string)
    ensures ByteLen(a + b) == ByteLen(a) + ByteLen(b)
  {
    if a == [] {
      assert a + b == b;
    } else {
      assert (a + b)[1..] == a[1..] + b && (a + b)[0] == a[0];
      ByteLenAppend(a[1..], b);
    }
  }

  lemma ByteLenOne(c: char)
    ensures ByteLen([c]) == Width(c)
  {
    assert [c][1..] == [];
  }

  /** The end of a front part is the start of the character behind it. */
  lemma {:induction false} CharAtEnd(a: string, b: string)
    ensures CharAt(a + b, ByteLen(a)) == Some(|a|)
  {
    if a != [] {
      assert (a + b)[1..] == a[1..] + b && (a + b)[0] == a[0];
      CharAtEnd(a[1..], b);
    }
  }

  /** Nothing starts inside a character. */
  lemma {:induction false} CharAtInside(a: string, c: char, b: string, d: nat)
    requires 0 < d < Width(c)
    ensures CharAt(a + [c] + b, ByteLen(a) + d).None?
  {
    var s := a + [c] + b;
    if a == [] {
      assert s[0] == c;
    } else {
      assert s[1..] == a[1..] + [c] + b && s[0] == a[0];
      CharAtInside(a[1..], c, b, d);
    }
  }

  /** A start found at a byte has exactly that many bytes before it. */
  lemma {:induction false} BytesBefore(s: string, p: nat)
    requires CharAt(s, p).Some?
    ensures ByteLen(s[..CharAt(s, p).value]) == p
  {
    var k := CharAt(s, p).value;
    if p > 0 {
      BytesBefore(s[1..], p - Width(s[0]));
      assert s[..k][1..] == s[1..][..k - 1];
    }
  }

  // The reducer's state and actions.

  datatype CommandInput = CommandInput(input: string, cursor: nat, historyIndex: nat)

  datatype Delta = Char(c: char) | Backspace | Left | Right | HistoryUp | HistoryDown

  datatype Action =
    | Connect
    | Disconnect
    | UpdateHilPending(count: nat)
    | SetPendingHil(hil: Option<string>, now: int)
    | ToggleNotificationsPopup
    | SetNewAgentForm(form: Option<string>)
    | EnterCommandMode
    | ExitCommandMode
    | UpdateCommandInput(delta: Delta)
    | SubmitCommand(cmd: string)
    | LogEvent(event: string)
    | ToggleLogs
    | ToggleHelpModal
    | CloseHelpModal

  datatype State = State(
    connected: bool,
    hilPending: nat,
    pendingHil: Option<string>,
    hilStartedAt: Option<int>,
    popupOpen: bool,
    form: Option<string>,
    commandMode: bool,
    commandInput: Option<CommandInput>,
    history: seq<string>,
    log: seq<string>,
    logVisible: bool,
    helpOpen: bool)

  const INITIAL := State(false, 0, None, None, false, None, false, None, [], [], false, false)

  const LOG_LIMIT: nat := 10

  function Push(log: seq<string>, event: string): seq<string> {
    var longer := log + [event];
    if |longer| > LOG_LIMIT then longer[1..] else longer
  }

  /** One edit of the command line; None is a panic. */
  function Edit(e: CommandInput, history: seq<string>, delta: Delta): Option<CommandInput> {
    match delta
    case Char(c) =>
      var text := Insert(e.input, e.cursor, c);
      if text.None? then None else Some(e.(input := text.value, cursor := e.cursor + 1))
    case Backspace =>
      if e.cursor == 0 then Some(e)
      else
        var text := Remove(e.input, e.cursor - 1);
        if text.None? then None else Some(e.(input := text.value, cursor := e.cursor - 1))
    case Left => Some(if e.cursor > 0 then e.(cursor := e.cursor - 1) else e)
    case Right => Some(if e.cursor < ByteLen(e.input) then e.(cursor := e.cursor + 1) else e)
    case HistoryUp =>
      if e.historyIndex == 0 then Some(e)
      else if e.historyIndex - 1 >= |history| then None
      else
        var text := history[e.historyIndex - 1];
        Some(CommandInput(text, ByteLen(text), e.historyIndex - 1))
    case HistoryDown =>
      if e.historyIndex >= |history| then Some(e)
      else
        var text := if e.historyIndex + 1 == |history| then "" else history[e.historyIndex + 1];
        Some(CommandInput(text, ByteLen(text), e.historyIndex + 1))
  }

  function Apply(s: State, a: Action): Option<State> {
    match a
    case Connect => Some(s.(connected := true))
    case Disconnect => Some(INITIAL)
    case UpdateHilPending(count) => Some(s.(hilPending := count))
    case SetPendingHil(hil, now) => Some(s.(pendingHil := hil, hilStartedAt := if hil.Some? then Some(now) else None))
    case ToggleNotificationsPopup => Some(s.(popupOpen := !s.popupOpen))
    case SetNewAgentForm(form) => Some(s.(form := form))
    case EnterCommandMode => Some(s.(commandMode := true, commandInput := Some(CommandInput("", 0, |s.history|))))
    case ExitCommandMode => Some(s.(commandMode := false, commandInput := None))
    case UpdateCommandInput(delta) =>
      if s.commandInput.None? then Some(s)
      else
        var e := Edit(s.commandInput.value, s.history, delta);
        if e.None? then None else Some(s.(commandInput := e))
    case SubmitCommand(cmd) => Some(s.(history := s.history + [cmd], commandMode := false, commandInput := None))
    case LogEvent(event) => Some(s.(log := Push(s.log, event)))
    case ToggleLogs => Some(s.(logVisible := !s.logVisible))
    case ToggleHelpModal => Some(s.(helpOpen := !s.helpOpen))
    case CloseHelpModal => Some(s.(helpOpen := false))
  }

  /** The state after a run, or None if some action panicked. */
  function After(actions: seq<Action>): Option<State> {
    if actions == [] then Some(INITIAL)
    else
      var before := After(actions[..|actions| - 1]);
      if before.None? then None else Apply(before.value, actions[|actions| - 1])
  }

  // The reference editor: text left and right of the cursor, commands older and newer than the one shown. No indices.

  datatype Editor = Editor(left: string, right: string, older: seq<string>, newer: seq<string>)

  function Type(e: Editor, delta: Delta): Editor {
    match delta
    case Char(c) => e.(left := e.left + [c])
    case Backspace => if e.left == [] then e else e.(left := e.left[..|e.left| - 1])
    case Left =>
      if e.left == [] then e
      else e.(left := e.left[..|e.left| - 1], right := [e.left[|e.left| - 1]] + e.right)
    case Right => if e.right == [] then e else e.(left := e.left + [e.right[0]], right := e.right[1..])
    case HistoryUp =>
      if e.older == [] then e
      else
        var shown := e.older[|e.older| - 1];
        Editor(shown, "", e.older[..|e.older| - 1], [shown] + e.newer)
    case HistoryDown =>
      if e.newer == [] then e
      else Editor(if |e.newer| == 1 then "" else e.newer[1], "", e.older + [e.newer[0]], e.newer[1..])
  }

  /** The actions since the last disconnect, on which everything below depends. */
  function SinceDisconnect(actions: seq<Action>): seq<Action> {
    if actions == [] || actions[|actions| - 1].Disconnect? then []
    else SinceDisconnect(actions[..|actions| - 1]) + [actions[|actions| - 1]]
  }

  function Submitted(actions: seq<Action>): seq<string> {
    if actions == [] then []
    else
      var last := actions[|actions| - 1];
      Submitted(actions[..|actions| - 1]) + (if last.SubmitCommand? then [last.cmd] else [])
  }

  function Logged(actions: seq<Action>): seq<string> {
    if actions == [] then []
    else
      var last := actions[|actions| - 1];
      Logged(actions[..|actions| - 1]) + (if last.LogEvent? then [last.event] else [])
  }

  /** What the reference editor shows after these actions. */
  function EditorAfter(actions: seq<Action>): Option<Editor> {
    if actions == [] then None
    else
      var before, last := EditorAfter(actions[..|actions| - 1]), actions[|actions| - 1];
      match last
      case EnterCommandMode => Some(Editor("", "", Submitted(actions), []))
      case ExitCommandMode => None
      case SubmitCommand(_) => None
      case UpdateCommandInput(delta) => if before.Some? then Some(Type(before.value, delta)) else None
      case _ => before
  }

  function LastOf(events: seq<string>, n: nat): seq<string> {
    if |events| <= n then events else events[|events| - n..]
  }

  // What every run keeps, whatever is typed.

  /** History, log and paired fields in terms of the actions since the last disconnect; cursor and index in bounds. */
  ghost predicate Keeps(s: State, recent: seq<Action>) {
    && s.history == Submitted(recent)
    && s.log == LastOf(Logged(recent), LOG_LIMIT)
    && (s.commandMode <==> s.commandInput.Some?)
    && (s.pendingHil.Some? <==> s.hilStartedAt.Some?)
    && (s.commandInput.Some? ==> InBounds(s.commandInput.value, s.history))
  }

  predicate InBounds(e: CommandInput, history: seq<string>) {
    e.cursor <= ByteLen(e.input) && e.historyIndex <= |history|
  }

  lemma PushKeepsLast(events: seq<string>, event: string)
    ensures Push(LastOf(events, LOG_LIMIT), event) == LastOf(events + [event], LOG_LIMIT)
  {
  }

  lemma InsertGrows(s: string, p: nat, c: char)
    requires Insert(s, p, c).Some?
    ensures ByteLen(Insert(s, p, c).value) == ByteLen(s) + Width(c)
  {
    var k := CharAt(s, p).value;
    assert s == s[..k] + s[k..];
    ByteLenAppend(s[..k], s[k..]);
    ByteLenAppend(s[..k] + [c], s[k..]);
    ByteLenAppend(s[..k], [c]);
    ByteLenOne(c);
  }

  lemma RemoveKeepsFront(s: string, p: nat)
    requires Remove(s, p).Some?
    ensures p <= ByteLen(Remove(s, p).value)
  {
    var k := CharAt(s, p).value;
    BytesBefore(s, p);
    ByteLenAppend(s[..k], s[k + 1..]);
  }

  lemma EditStaysInBounds(e: CommandInput, history: seq<string>, delta: Delta)
    requires InBounds(e, history) && Edit(e, history, delta).Some?
    ensures InBounds(Edit(e, history, delta).value, history)
  {
    if delta.Char? {
      InsertGrows(e.input, e.cursor, delta.c);
    } else if delta.Backspace? && e.cursor > 0 {
      RemoveKeepsFront(e.input, e.cursor - 1);
    }
  }

  lemma StepKeeps(s: State, recent: seq<Action>, a: Action)
    requires Keeps(s, recent) && !a.Disconnect? && Apply(s, a).Some?
    ensures Keeps(Apply(s, a).value, recent + [a])
  {
    var next := recent + [a];
    assert next[..|recent|] == recent && next[|recent|] == a;
    if a.LogEvent? {
      PushKeepsLast(Logged(recent), a.event);
    }
    assert s.history + [] == s.history && Logged(recent) + [] == Logged(recent);
    if a.UpdateCommandInput? && s.commandInput.Some? {
      EditStaysInBounds(s.commandInput.value, s.history, a.delta);
    }
  }

  // The other fields, as the actions since the last disconnect determine them.

  /** The last action of its kind. */
  ghost predicate IsLast(recent: seq<Action>, i: int, kind: Action -> bool) {
    0 <= i < |recent| && kind(recent[i]) && forall j :: i < j < |recent| ==> !kind(recent[j])
  }

  ghost predicate NoneOf(recent: seq<Action>, kind: Action -> bool) {
    forall i :: 0 <= i < |recent| ==> !kind(recent[i])
  }

  predicate SetsCount(a: Action) { a.UpdateHilPending? }
  predicate SetsHil(a: Action) { a.SetPendingHil? }
  predicate SetsForm(a: Action) { a.SetNewAgentForm? }

  predicate IsOdd(n: nat) {
    n % 2 == 1
  }

  function SinceClose(recent: seq<Action>): seq<Action> {
    if recent == [] || recent[|recent| - 1].CloseHelpModal? then []
    else SinceClose(recent[..|recent| - 1]) + [recent[|recent| - 1]]
  }

  /** Connected after a connect; toggles follow the parity of their uses, the help window of those since it was last
      closed. */
  ghost predicate Switches(s: State, recent: seq<Action>) {
    && (s.connected <==> Connect in recent)
    && (s.popupOpen <==> IsOdd(multiset(recent)[ToggleNotificationsPopup]))
    && (s.logVisible <==> IsOdd(multiset(recent)[ToggleLogs]))
    && (s.helpOpen <==> IsOdd(multiset(SinceClose(recent))[ToggleHelpModal]))
  }

  /** The pending count, the form, and the pending request with its start time are those that were set last. */
  ghost predicate Settings(s: State, recent: seq<Action>) {
    && (NoneOf(recent, SetsCount) ==> s.hilPending == 0)
    && (forall i :: IsLast(recent, i, SetsCount) ==> s.hilPending == recent[i].count)
    && (NoneOf(recent, SetsForm) ==> s.form == None)
    && (forall i :: IsLast(recent, i, SetsForm) ==> s.form == recent[i].form)
    && (NoneOf(recent, SetsHil) ==> s.pendingHil == None && s.hilStartedAt == None)
    && (forall i :: IsLast(recent, i, SetsHil) ==>
          s.pendingHil == recent[i].hil && s.hilStartedAt == if recent[i].hil.Some? then Some(recent[i].now) else None)
  }

  lemma LastOneMore(recent: seq<Action>, a: Action, kind: Action -> bool)
    ensures NoneOf(recent + [a], kind) <==> NoneOf(recent, kind) && !kind(a)
    ensures forall i :: IsLast(recent + [a], i, kind) <==>
      if kind(a) then i == |recent| else IsLast(recent, i, kind)
  {
    var next, n := recent + [a], |recent|;
    assert next[n] == a && forall i :: 0 <= i < n ==> next[i] == recent[i];
    if NoneOf(next, kind) {
      assert !kind(next[n]);
      forall i | 0 <= i < n ensures !kind(recent[i]) { assert !kind(next[i]); }
    }
    forall i ensures IsLast(next, i, kind) <==> if kind(a) then i == n else IsLast(recent, i, kind) {
      if IsLast(next, i, kind) && i < n {
        assert !kind(next[n]);
        forall j | i < j < n ensures !kind(recent[j]) { assert !kind(next[j]); }
      }
    }
  }

  lemma OddOneMore(recent: seq<Action>, a: Action, flip: Action)
    ensures IsOdd(multiset(recent + [a])[flip]) <==> (IsOdd(multiset(recent)[flip]) <==> a != flip)
  {
    assert multiset(recent + [a]) == multiset(recent) + multiset{a};
  }

  lemma SwitchEffects(s: State, a: Action)
    requires !a.Disconnect? && Apply(s, a).Some?
    ensures var t := Apply(s, a).value;
      && (t.connected <==> s.connected || a == Connect)
      && (t.popupOpen <==> (s.popupOpen <==> a != ToggleNotificationsPopup))
  {
  }

  lemma WindowEffects(s: State, a: Action)
    requires !a.Disconnect? && Apply(s, a).Some?
    ensures var t := Apply(s, a).value;
      && (t.logVisible <==> (s.logVisible <==> a != ToggleLogs))
      && (t.helpOpen <==> a != CloseHelpModal && (s.helpOpen <==> a != ToggleHelpModal))
  {
  }

  lemma StepSwitches(s: State, recent: seq<Action>, a: Action)
    requires Switches(s, recent) && !a.Disconnect? && Apply(s, a).Some?
    ensures Switches(Apply(s, a).value, recent + [a])
  {
    SwitchEffects(s, a);
    WindowEffects(s, a);
    OddOneMore(recent, a, ToggleNotificationsPopup);
    OddOneMore(recent, a, ToggleLogs);
    OddOneMore(SinceClose(recent), a, ToggleHelpModal);
    CloseOneMore(recent, a);
  }

  lemma CloseOneMore(recent: seq<Action>, a: Action)
    ensures SinceClose(recent + [a]) == if a.CloseHelpModal? then [] else SinceClose(recent) + [a]
  {
    assert (recent + [a])[..|recent|] == recent;
  }

  lemma SettingEffects(s: State, a: Action)
    requires !a.Disconnect? && Apply(s, a).Some?
    ensures var t := Apply(s, a).value;
      && t.hilPending == (if a.UpdateHilPending? then a.count else s.hilPending)
      && t.form == (if a.SetNewAgentForm? then a.form else s.form)
      && t.pendingHil == (if a.SetPendingHil? then a.hil else s.pendingHil)
      && t.hilStartedAt == (if !a.SetPendingHil? then s.hilStartedAt else if a.hil.Some? then Some(a.now) else None)
  {
  }

  lemma StepSettings(s: State, recent: seq<Action>, a: Action)
    requires Settings(s, recent) && !a.Disconnect? && Apply(s, a).Some?
    ensures Settings(Apply(s, a).value, recent + [a])
  {
    SettingEffects(s, a);
    LastOneMore(recent, a, SetsCount);
    LastOneMore(recent, a, SetsForm);
    LastOneMore(recent, a, SetsHil);
    var next := recent + [a];
    assert next[|recent|] == a && forall i :: 0 <= i < |recent| ==> next[i] == recent[i];
  }

  /** In every run that does not panic these fields are determined by the actions since the last disconnect. */
  lemma {:induction false} FieldsFollowActions(actions: seq<Action>)
    requires After(actions).Some?
    ensures Switches(After(actions).value, SinceDisconnect(actions))
    ensures Settings(After(actions).value, SinceDisconnect(actions))
    decreases |actions|
  {
    if actions != [] {
      var n := |actions| - 1;
      FieldsFollowActions(actions[..n]);
      if !actions[n].Disconnect? {
        var s, recent := After(actions[..n]).value, SinceDisconnect(actions[..n]);
        StepSwitches(s, recent, actions[n]);
        StepSettings(s, recent, actions[n]);
      }
    }
  }

  lemma OneMoreAction(actions: seq<Action>, a: Action)
    ensures After(actions + [a]) == if After(actions).None? then None else Apply(After(actions).value, a)
  {
    assert (actions + [a])[..|actions|] == actions;
  }

  /** In every run that does not panic: cursor and history index in bounds, command mode exactly with an input, a
      pending request exactly with its start time, the submitted commands and the last ten events since the last
      disconnect. */
  lemma {:induction false} EveryRunKeeps(actions: seq<Action>)
    requires After(actions).Some?
    ensures Keeps(After(actions).value, SinceDisconnect(actions))
    decreases |actions|
  {
    if actions != [] {
      var n := |actions| - 1;
      EveryRunKeeps(actions[..n]);
      if !actions[n].Disconnect? {
        StepKeeps(After(actions[..n]).value, SinceDisconnect(actions[..n]), actions[n]);
      }
    }
  }

  lemma EndIsAtEnd(s: string, p: nat)
    requires CharAt(s, p) == Some(|s|)
    ensures p == ByteLen(s)
  {
    BytesBefore(s, p);
    assert s[..|s|] == s;
  }

  predicate InsideCharacter(e: CommandInput, delta: Delta) {
    || (delta.Char? && CharAt(e.input, e.cursor).None?)
    || (delta.Backspace? && e.cursor > 0 && CharAt(e.input, e.cursor - 1).None?)
  }

  lemma EditPanicsIff(e: CommandInput, history: seq<string>, delta: Delta)
    requires InBounds(e, history)
    ensures Edit(e, history, delta).None? <==> InsideCharacter(e, delta)
  {
    if delta.Backspace? && e.cursor > 0 && CharAt(e.input, e.cursor - 1) == Some(|e.input|) {
      EndIsAtEnd(e.input, e.cursor - 1);
    }
  }

  /** An action panics exactly when it inserts or removes in the middle of a character. */
  lemma PanicsInsideCharacterIff(actions: seq<Action>, a: Action)
    requires After(actions).Some?
    ensures var input := After(actions).value.commandInput;
      After(actions + [a]).None? <==> a.UpdateCommandInput? && input.Some? && InsideCharacter(input.value, a.delta)
  {
    EveryRunKeeps(actions);
    OneMoreAction(actions, a);
    var s := After(actions).value;
    if a.UpdateCommandInput? && s.commandInput.Some? {
      EditPanicsIff(s.commandInput.value, s.history, a.delta);
    }
  }

  // When the reducer is the reference editor.

  ghost predicate Shows(e: CommandInput, ed: Editor, history: seq<string>) {
    && e.input == ed.left + ed.right && e.cursor == ByteLen(ed.left)
    && e.historyIndex == |ed.older| && ed.older + ed.newer == history
  }

  ghost predicate ShowsOption(e: Option<CommandInput>, ed: Option<Editor>, history: seq<string>) {
    (e.Some? <==> ed.Some?) && (e.Some? ==> Shows(e.value, ed.value, history))
  }

  /** The character that the key types, deletes or crosses is one byte wide. */
  predicate Fits(ed: Editor, delta: Delta) {
    match delta
    case Char(c) => Ascii(c)
    case Backspace => ed.left == [] || Ascii(ed.left[|ed.left| - 1])
    case Left => ed.left == [] || Ascii(ed.left[|ed.left| - 1])
    case Right => ed.right == [] || Ascii(ed.right[0])
    case HistoryUp => true
    case HistoryDown => true
  }

  /** The edit does what the reference editor does. */
  ghost predicate Agrees(e: CommandInput, ed: Editor, history: seq<string>, delta: Delta) {
    var after := Edit(e, history, delta);
    after.Some? && Shows(after.value, Type(ed, delta), history)
  }

  lemma CharAgreesIff(e: CommandInput, ed: Editor, history: seq<string>, c: char)
    requires Shows(e, ed, history)
    ensures Agrees(e, ed, history, Char(c)) <==> Ascii(c)
  {
    CharAtEnd(ed.left, ed.right);
    assert e.input[..|ed.left|] == ed.left && e.input[|ed.left|..] == ed.right;
    ByteLenAppend(ed.left, [c]);
    ByteLenOne(c);
  }

  /** The text left of the cursor, without its last character. */
  lemma LastOfLeft(ed: Editor)
    requires ed.left != []
    ensures var n := |ed.left| - 1;
      && ed.left == ed.left[..n] + [ed.left[n]]
      && ByteLen(ed.left) == ByteLen(ed.left[..n]) + Width(ed.left[n])
      && ed.left + ed.right == ed.left[..n] + [ed.left[n]] + ed.right
  {
    var n := |ed.left| - 1;
    ByteLenAppend(ed.left[..n], [ed.left[n]]);
    ByteLenOne(ed.left[n]);
    assert ed.left == ed.left[..n] + [ed.left[n]];
  }

  lemma BackspaceAgreesIff(e: CommandInput, ed: Editor, history: seq<string>)
    requires Shows(e, ed, history)
    ensures Agrees(e, ed, history, Backspace) <==> Fits(ed, Backspace)
  {
    if ed.left != [] {
      var n := |ed.left| - 1;
      var front, last := ed.left[..n], ed.left[n];
      LastOfLeft(ed);
      if Ascii(last) {
        assert e.input == front + ([last] + ed.right);
        CharAtEnd(front, [last] + ed.right);
        assert e.input[..n] == front && e.input[n + 1..] == ed.right;
      } else {
        CharAtInside(front, last, ed.right, Width(last) - 1);
      }
    }
  }

  lemma LeftAgreesIff(e: CommandInput, ed: Editor, history: seq<string>)
    requires Shows(e, ed, history)
    ensures Agrees(e, ed, history, Left) <==> Fits(ed, Left)
  {
    if ed.left != [] {
      var n := |ed.left| - 1;
      LastOfLeft(ed);
      assert ed.left[..n] + ([ed.left[n]] + ed.right) == e.input;
    }
  }

  lemma RightAgreesIff(e: CommandInput, ed: Editor, history: seq<string>)
    requires Shows(e, ed, history)
    ensures Agrees(e, ed, history, Right) <==> Fits(ed, Right)
  {
    ByteLenAppend(ed.left, ed.right);
    if ed.right != [] {
      ByteLenAppend(ed.left, [ed.right[0]]);
      ByteLenOne(ed.right[0]);
      assert ed.left + [ed.right[0]] + ed.right[1..] == e.input;
    }
  }

  lemma UpAgrees(e: CommandInput, ed: Editor, history: seq<string>)
    requires Shows(e, ed, history)
    ensures Agrees(e, ed, history, HistoryUp)
  {
    if ed.older != [] {
      var n := |ed.older| - 1;
      var next := Type(ed, HistoryUp);
      assert history[n] == ed.older[n] == next.left;
      assert next.older + next.newer == ed.older + ed.newer;
      assert next.left + next.right == history[n];
    }
  }

  lemma DownAgrees(e: CommandInput, ed: Editor, history: seq<string>)
    requires Shows(e, ed, history)
    ensures Agrees(e, ed, history, HistoryDown)
  {
    if ed.newer != [] {
      var n := |ed.older| + 1;
      var next := Type(ed, HistoryDown);
      assert |ed.newer| > 1 ==> history[n] == ed.newer[1];
      assert next.older + next.newer == ed.older + ed.newer;
      assert next.left + next.right == next.left;
    }
  }

  /** One key: the edit is the reference editor's exactly when the key fits, for text of any width. */
  lemma EditAgreesIff(e: CommandInput, ed: Editor, history: seq<string>, delta: Delta)
    requires Shows(e, ed, history)
    ensures Agrees(e, ed, history, delta) <==> Fits(ed, delta)
  {
    match delta
    case Char(c) => CharAgreesIff(e, ed, history, c);
    case Backspace => BackspaceAgreesIff(e, ed, history);
    case Left => LeftAgreesIff(e, ed, history);
    case Right => RightAgreesIff(e, ed, history);
    case HistoryUp => UpAgrees(e, ed, history);
    case HistoryDown => DownAgrees(e, ed, history);
  }

  /** After these actions the reducer has not panicked and shows what the reference editor shows. */
  ghost predicate FollowsNow(actions: seq<Action>) {
    && After(actions).Some?
    && var s := After(actions).value;
       ShowsOption(s.commandInput, EditorAfter(SinceDisconnect(actions)), s.history)
  }

  /** The reducer shows what the reference editor shows all the way. */
  ghost predicate Follows(actions: seq<Action>) {
    forall n :: 0 <= n <= |actions| ==> FollowsNow(actions[..n])
  }

  predicate FitsNow(before: seq<Action>, a: Action) {
    var ed := EditorAfter(SinceDisconnect(before));
    a.UpdateCommandInput? && ed.Some? ==> Fits(ed.value, a.delta)
  }

  /** Every key pressed fits what the reference editor shows at that moment. */
  ghost predicate AllFit(actions: seq<Action>) {
    forall n :: 0 <= n < |actions| ==> FitsNow(actions[..n], actions[n])
  }

  lemma RecentOneMore(before: seq<Action>, a: Action)
    ensures SinceDisconnect(before + [a]) == if a.Disconnect? then [] else SinceDisconnect(before) + [a]
  {
    assert (before + [a])[..|before|] == before;
  }

  lemma EditorOneMore(recent: seq<Action>, a: Action)
    ensures EditorAfter(recent + [a]) ==
      match a
      case EnterCommandMode => Some(Editor("", "", Submitted(recent), []))
      case ExitCommandMode => None
      case SubmitCommand(_) => None
      case UpdateCommandInput(delta) =>
        if EditorAfter(recent).Some? then Some(Type(EditorAfter(recent).value, delta)) else None
      case _ => EditorAfter(recent)
  {
    var next := recent + [a];
    assert next[..|recent|] == recent && next[|recent|] == a;
    assert Submitted(recent) + [] == Submitted(recent);
  }

  lemma StepShowsIff(s: State, recent: seq<Action>, a: Action)
    requires s.history == Submitted(recent) && ShowsOption(s.commandInput, EditorAfter(recent), s.history)
    requires !a.Disconnect?
    ensures (Apply(s, a).Some?
             && ShowsOption(Apply(s, a).value.commandInput, EditorAfter(recent + [a]), Apply(s, a).value.history))
      <==> (a.UpdateCommandInput? && EditorAfter(recent).Some? ==> Fits(EditorAfter(recent).value, a.delta))
  {
    EditorOneMore(recent, a);
    if a.UpdateCommandInput? && s.commandInput.Some? {
      EditAgreesIff(s.commandInput.value, EditorAfter(recent).value, s.history, a.delta);
    }
    assert s.history + [] == s.history;
  }

  lemma StepFollowsIff(before: seq<Action>, a: Action)
    requires FollowsNow(before)
    ensures FollowsNow(before + [a]) <==> FitsNow(before, a)
  {
    OneMoreAction(before, a);
    RecentOneMore(before, a);
    EveryRunKeeps(before);
    if !a.Disconnect? {
      StepShowsIff(After(before).value, SinceDisconnect(before), a);
    }
  }

  lemma FollowsOneMore(before: seq<Action>, a: Action)
    ensures Follows(before + [a]) <==> Follows(before) && FollowsNow(before + [a])
  {
    var all := before + [a];
    assert all[..|all|] == all;
    forall n | 0 <= n <= |before| ensures all[..n] == before[..n] { }
    if Follows(all) {
      forall n | 0 <= n <= |before| ensures FollowsNow(before[..n]) { assert FollowsNow(all[..n]); }
      assert FollowsNow(all[..|all|]);
    }
    if Follows(before) && FollowsNow(all) {
      forall n | 0 <= n <= |all| ensures FollowsNow(all[..n]) {
        if n <= |before| { assert FollowsNow(before[..n]); }
      }
    }
  }

  lemma AllFitOneMore(before: seq<Action>, a: Action)
    ensures AllFit(before + [a]) <==> AllFit(before) && FitsNow(before, a)
  {
    var all := before + [a];
    forall n | 0 <= n <= |before| ensures all[..n] == before[..n] { }
    assert all[..|before|] == before && all[|before|] == a;
    if AllFit(all) {
      forall n | 0 <= n < |before| ensures FitsNow(before[..n], before[n]) { assert FitsNow(all[..n], all[n]); }
      assert FitsNow(all[..|before|], all[|before|]);
    }
    if AllFit(before) && FitsNow(before, a) {
      forall n | 0 <= n < |all| ensures FitsNow(all[..n], all[n]) {
        if n < |before| { assert FitsNow(before[..n], before[n]); }
      }
    }
  }

  /** For every run of any characters: the reducer follows the reference editor exactly when every key fits. */
  lemma {:induction false} ReducerFollowsEditorIff(actions: seq<Action>)
    ensures Follows(actions) <==> AllFit(actions)
    decreases |actions|
  {
    if actions == [] {
      assert FollowsNow([]);
      forall n | 0 <= n <= |actions| ensures actions[..n] == [] { }
    } else {
      var n := |actions| - 1;
      var before, a := actions[..n], actions[n];
      assert actions == before + [a];
      ReducerFollowsEditorIff(before);
      FollowsOneMore(before, a);
      AllFitOneMore(before, a);
      if Follows(before) {
        assert before[..|before|] == before;
        StepFollowsIff(before, a);
      }
    }
  }

  // ASCII text always fits.

  ghost predicate AsciiActions(actions: seq<Action>) {
    forall i :: 0 <= i < |actions| ==> AsciiAction(actions[i])
  }

  predicate AsciiAction(a: Action) {
    && (a.SubmitCommand? ==> IsAscii(a.cmd))
    && (a.UpdateCommandInput? && a.delta.Char? ==> Ascii(a.delta.c))
  }

  predicate AllAscii(history: seq<string>) {
    forall i :: 0 <= i < |history| ==> IsAscii(history[i])
  }

  predicate AsciiEditor(ed: Editor) {
    IsAscii(ed.left) && IsAscii(ed.right) && AllAscii(ed.older) && AllAscii(ed.newer)
  }

  lemma TypeKeepsAscii(ed: Editor, delta: Delta)
    requires AsciiEditor(ed) && (delta.Char? ==> Ascii(delta.c))
    ensures AsciiEditor(Type(ed, delta))
  {
  }

  lemma {:induction false} EditorIsAscii(actions: seq<Action>)
    requires AsciiActions(actions)
    ensures AllAscii(Submitted(actions))
    ensures EditorAfter(actions).Some? ==> AsciiEditor(EditorAfter(actions).value)
    decreases |actions|
  {
    if actions != [] {
      var n := |actions| - 1;
      EditorIsAscii(actions[..n]);
      assert AsciiAction(actions[n]);
      if actions[n].UpdateCommandInput? && EditorAfter(actions[..n]).Some? {
        TypeKeepsAscii(EditorAfter(actions[..n]).value, actions[n].delta);
      }
    }
  }

  lemma {:induction false} RecentIsAscii(actions: seq<Action>)
    requires AsciiActions(actions)
    ensures AsciiActions(SinceDisconnect(actions))
    decreases |actions|
  {
    if actions != [] {
      var n := |actions| - 1;
      RecentIsAscii(actions[..n]);
      assert AsciiAction(actions[n]);
    }
  }

  /** With ASCII keys and commands nothing panics and the reducer is the reference editor throughout. */
  lemma {:induction false} AsciiFollowsEditor(actions: seq<Action>)
    requires AsciiActions(actions)
    ensures Follows(actions) && FollowsNow(actions)
  {
    forall n | 0 <= n < |actions| ensures FitsNow(actions[..n], actions[n]) {
      RecentIsAscii(actions[..n]);
      EditorIsAscii(SinceDisconnect(actions[..n]));
      assert AsciiAction(actions[n]);
    }
    ReducerFollowsEditorIff(actions);
    assert actions[..|actions|] == actions;
  }

  // What a wide character does.

  lemma EnteredCommandMode(actions: seq<Action>)
    requires After(actions).Some?
    ensures var s := After(actions).value;
      After(actions + [EnterCommandMode])
        == Some(s.(commandMode := true, commandInput := Some(CommandInput("", 0, |s.history|))))
  {
    OneMoreAction(actions, EnterCommandMode);
  }

  /** Typing it into an empty line leaves the cursor inside it. */
  lemma WideEdit(index: nat, history: seq<string>, wide: char)
    requires !Ascii(wide)
    ensures Edit(CommandInput("", 0, index), history, Char(wide)) == Some(CommandInput([wide], 1, index))
    ensures CharAt([wide], 1).None?
  {
    assert [] + [wide] + [] == [wide];
  }

  lemma TypedWide(actions: seq<Action>, index: nat, wide: char)
    requires After(actions).Some? && After(actions).value.commandInput == Some(CommandInput("", 0, index))
    requires !Ascii(wide)
    ensures var t := After(actions + [UpdateCommandInput(Char(wide))]);
      t.Some? && t.value.commandInput == Some(CommandInput([wide], 1, index))
  {
    OneMoreAction(actions, UpdateCommandInput(Char(wide)));
    WideEdit(index, After(actions).value.history, wide);
  }

  /** So after any run, typing any character after a wider one at the start panics. */
  lemma WideCharacterPanics(actions: seq<Action>, wide: char, next: char)
    requires After(actions).Some? && !Ascii(wide)
    ensures After(actions + [EnterCommandMode] + [UpdateCommandInput(Char(wide))]
      + [UpdateCommandInput(Char(next))]).None?
  {
    var entered := actions + [EnterCommandMode];
    EnteredCommandMode(actions);
    TypedWide(entered, |After(actions).value.history|, wide);
    WideEdit(0, [], wide);
    PanicsInsideCharacterIff(entered + [UpdateCommandInput(Char(wide))], UpdateCommandInput(Char(next)));
  }

  /** The state object. */
  class TuiState {
    var connected: bool
    var hilPending: nat
    var pendingHil: Option<string>
    var hilStartedAt: Option<int>
    var popupOpen: bool
    var form: Option<string>
    var commandMode: bool
    var commandInput: Option<CommandInput>
    var history: seq<string>
    var log: seq<string>
    var logVisible: bool
    var helpOpen: bool

    ghost function View(): State
      reads this
    {
      State(connected, hilPending, pendingHil, hilStartedAt, popupOpen, form, commandMode, commandInput, history, log,
            logVisible, helpOpen)
    }

    constructor ()
      ensures View() == INITIAL
    {
      connected, hilPending, pendingHil, hilStartedAt := false, 0, None, None;
      popupOpen, form, commandMode, commandInput := false, None, false, None;
      history, log, logVisible, helpOpen := [], [], false, false;
    }

    /** `EventLog::push`. */
    method PushEvent(event: string)
      modifies this`log
      ensures log == Push(old(log), event)
    {
      log := log + [event];
      if |log| > LOG_LIMIT {
        log := log[1..];
      }
    }

    method EditCommand(delta: Delta) returns (panicked: bool)
      requires commandInput.Some?
      modifies this`commandInput
      ensures var e := Edit(old(commandInput).value, history, delta);
        (panicked <==> e.None?) && (!panicked ==> commandInput == e)
    {
      var e := commandInput.value;
      panicked := false;
      match delta {
        case Char(c) =>
          var text := Insert(e.input, e.cursor, c);
          if text.None? {
            return true;
          }
          e := e.(input := text.value);
          e := e.(cursor := e.cursor + 1);
        case Backspace =>
          if e.cursor > 0 {
            e := e.(cursor := e.cursor - 1);
            var text := Remove(e.input, e.cursor);
            if text.None? {
              return true;
            }
            e := e.(input := text.value);
          }
        case Left =>
          if e.cursor > 0 {
            e := e.(cursor := e.cursor - 1);
          }
        case Right =>
          if e.cursor < ByteLen(e.input) {
            e := e.(cursor := e.cursor + 1);
          }
        case HistoryUp =>
          if e.historyIndex > 0 {
            e := e.(historyIndex := e.historyIndex - 1);
            if e.historyIndex >= |history| {
              return true;
            }
            e := e.(input := history[e.historyIndex]);
            e := e.(cursor := ByteLen(e.input));
          }
        case HistoryDown =>
          if e.historyIndex < |history| {
            e := e.(historyIndex := e.historyIndex + 1);
            if e.historyIndex == |history| {
              e := e.(input := "");
            } else {
              e := e.(input := history[e.historyIndex]);
            }
            e := e.(cursor := ByteLen(e.input));
          }
      }
      commandInput := Some(e);
    }

    method Reset()
      modifies this
      ensures View() == INITIAL
    {
      connected, hilPending, pendingHil, hilStartedAt := false, 0, None, None;
      popupOpen, form, commandMode, commandInput := false, None, false, None;
      history, log, logVisible, helpOpen := [], [], false, false;
    }

    /** The actions on the command line. */
    method ReduceCommand(a: Action) returns (panicked: bool)
      requires a.EnterCommandMode? || a.ExitCommandMode? || a.UpdateCommandInput? || a.SubmitCommand?
      modifies this`commandMode, this`commandInput, this`history
      ensures panicked <==> Apply(old(View()), a).None?
      ensures !panicked ==> Apply(old(View()), a) == Some(View())
    {
      panicked := false;
      match a {
        case EnterCommandMode =>
          commandMode := true;
          commandInput := Some(CommandInput("", 0, |history|));
        case ExitCommandMode =>
          commandMode := false;
          commandInput := None;
        case UpdateCommandInput(delta) =>
          if commandInput.Some? {
            panicked := EditCommand(delta);
          }
        case SubmitCommand(cmd) =>
          history := history + [cmd];
          commandMode := false;
          commandInput := None;
      }
    }

    method Reducer(a: Action) returns (panicked: bool)
      modifies this
      ensures panicked <==> Apply(old(View()), a).None?
      ensures !panicked ==> Apply(old(View()), a) == Some(View())
    {
      if a.EnterCommandMode? || a.ExitCommandMode? || a.UpdateCommandInput? || a.SubmitCommand? {
        panicked := ReduceCommand(a);
        return;
      }
      panicked := false;
      match a {
        case Connect => connected := true;
        case Disconnect => Reset();
        case UpdateHilPending(count) => hilPending := count;
        case SetPendingHil(hil, now) =>
          pendingHil := hil;
          hilStartedAt := if hil.Some? then Some(now) else None;
        case ToggleNotificationsPopup => popupOpen := !popupOpen;
        case SetNewAgentForm(f) => form := f;
        case LogEvent(event) => PushEvent(event);
        case ToggleLogs => logVisible := !logVisible;
        case ToggleHelpModal => helpOpen := !helpOpen;
        case CloseHelpModal => helpOpen := false;
      }
    }
  }
}
