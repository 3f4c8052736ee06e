/** Tool names on the wire: `/` becomes `__` on the way out and every leftmost `__` becomes `/` on the way back. */
module ToolNames {
  import opened Common

  function Mangle(name: string): string {
    Replace(name, "/", "__")
  }

  function Unmangle(wire: string): string {
    Replace(wire, "__", "/")
  }

  /** `__` at position i. */
  predicate DoubleAt(s: string, i: int) {
    0 <= i < |s| - 1 && s[i] == '_' && s[i + 1] == '_'
  }

  predicate HasDouble(s: string) {
    exists i :: 0 <= i < |s| - 1 && DoubleAt(s, i)
  }

  /** An underscore directly before a slash or another underscore. */
  predicate Ambiguous(s: string, i: int) {
    0 <= i < |s| - 1 && s[i] == '_' && (s[i + 1] == '_' || s[i + 1] == '/')
  }

  /** The name contains neither `__` nor `_/`. */
  predicate Safe(s: string) {
    forall i :: 0 <= i < |s| - 1 ==> !Ambiguous(s, i)
  }

  lemma MangleHead(name: string)
    requires name != []
    ensures Mangle(name) == (if name[0] == '/' then "__" else [name[0]]) + Mangle(name[1..])
  {
    assert ("/" <= name) <==> name[0] == '/';
  }

  lemma MangleFirst(name: string)
    ensures Mangle(name) == [] <==> name == []
    ensures name != [] ==> Mangle(name)[0] == if name[0] == '/' then '_' else name[0]
  {
    if name != [] { MangleHead(name); }
  }

  lemma DoublePrefix(s: string)
    ensures "__" <= s <==> |s| > 1 && s[0] == '_' && s[1] == '_'
  {
  }

  /** Where no ambiguity starts, the round trip works one character at a time. */
  lemma RoundTripHead(name: string)
    requires name != [] && !Ambiguous(name, 0)
    ensures Unmangle(Mangle(name)) == [name[0]] + Unmangle(Mangle(name[1..]))
  {
    MangleHead(name);
    var tail := Mangle(name[1..]);
    MangleFirst(name[1..]);
    if name[0] == '/' {
      assert ("__" + tail)[2..] == tail;
      assert "__" <= "__" + tail;
    } else {
      var wire := [name[0]] + tail;
      assert wire[1..] == tail;
      assert |name| > 1 ==> name[1..][0] == name[1];
      DoublePrefix(wire);
      assert |wire| > 1 ==> wire[1] == tail[0];
    }
  }

  /** The round trip gives back exactly the names with neither `__` nor `_/`. */
  lemma {:induction false} RoundTripIffSafe(name: string)
    ensures Unmangle(Mangle(name)) == name <==> Safe(name)
  {
    if name != [] {
      RoundTripIffSafe(name[1..]);
      var tail := name[1..];
      assert forall i :: 0 <= i < |tail| - 1 ==> (Ambiguous(tail, i) <==> Ambiguous(name, i + 1));
      if Ambiguous(name, 0) {
        assert !Safe(name);
        MangleHead(name);
        MangleFirst(tail);
        var wire := Mangle(name);
        assert wire[0] == '_' && wire[1] == '_';
        assert "__" <= wire;
        assert Unmangle(wire)[0] == '/';
      } else {
        RoundTripHead(name);
        assert name == [name[0]] + tail;
        assert Safe(name) <==> Safe(tail) by {
          if Safe(tail) {
            forall i | 0 <= i < |name| - 1 ensures !Ambiguous(name, i) {
              if i > 0 { assert !Ambiguous(tail, i - 1); }
            }
          }
          if Safe(name) {
            forall i | 0 <= i < |tail| - 1 ensures !Ambiguous(tail, i) {
              assert !Ambiguous(name, i + 1);
            }
          }
        }
      }
    }
  }

  lemma MangleIsInjectiveOnSafe(a: string, b: string)
    requires Safe(a) && Safe(b) && Mangle(a) == Mangle(b)
    ensures a == b
  {
    RoundTripIffSafe(a);
    RoundTripIffSafe(b);
  }

  lemma {:induction false} MangleAppend(a: string, b: string)
    ensures Mangle(a + b) == Mangle(a) + Mangle(b)
  {
    if a == [] {
      assert a + b == b;
    } else {
      MangleHead(a);
      MangleHead(a + b);
      assert (a + b)[1..] == a[1..] + b;
      MangleAppend(a[1..], b);
    }
  }

  /** Forbidding `__` alone is not enough: these two names, neither of which needs to contain it, meet on the wire. */
  lemma UnderscoreBeforeSlashCollides(x: string, y: string)
    ensures Mangle(x + "_/" + y) == Mangle(x + "/_" + y) && x + "_/" + y != x + "/_" + y
  {
    MangleAppend(x + "_/", y);
    MangleAppend(x, "_/");
    MangleAppend(x + "/_", y);
    MangleAppend(x, "/_");
    MangleHead("_/");
    MangleHead("/_");
    MangleHead("/");
    MangleHead("_");
    assert "_/"[1..] == "/" && "/_"[1..] == "_" && "/"[1..] == "" && "_"[1..] == "";
    assert Mangle("_/") == "___" && Mangle("/_") == "___";
    assert (x + "_/" + y)[|x|] == '_' && (x + "/_" + y)[|x|] == '/';
  }

  /** What comes off the wire never contains `__`. */
  lemma {:induction false} UnmangledHasNoDouble(wire: string)
    ensures !HasDouble(Unmangle(wire))
    ensures wire != [] && wire[0] != '_' ==> Unmangle(wire) != [] && Unmangle(wire)[0] != '_'
    ensures Unmangle(wire) == [] <==> wire == []
    decreases |wire|
  {
    if wire != [] {
      var out := Unmangle(wire);
      if "__" <= wire {
        UnmangledHasNoDouble(wire[2..]);
        var tail := Unmangle(wire[2..]);
        assert out == "/" + tail;
        assert forall i :: 0 <= i < |out| - 1 && DoubleAt(out, i) ==> DoubleAt(tail, i - 1);
      } else {
        UnmangledHasNoDouble(wire[1..]);
        var tail := Unmangle(wire[1..]);
        assert out == [wire[0]] + tail;
        assert |wire| > 1 && wire[0] == '_' ==> wire[1] != '_';
        assert forall i :: 0 <= i < |out| - 1 && DoubleAt(out, i) ==> i == 0 || DoubleAt(tail, i - 1);
      }
    }
  }

  // Names of dispatched tool calls.

  datatype NameError = EmptyName | ReservedDouble

  function ParseName(s: string): Result<string, NameError> {
    if s == [] then Err(EmptyName) else if HasDouble(s) then Err(ReservedDouble) else Ok(s)
  }

  /** A name is refused exactly when it is empty or contains `__`, and otherwise taken as it is. */
  lemma NameParsesIff(s: string)
    ensures ParseName(s) == Err(EmptyName) <==> s == []
    ensures ParseName(s) == Err(ReservedDouble) <==> exists x, y :: s == x + "__" + y
    ensures ParseName(s).Ok? ==> ParseName(s).value == s
  {
    if HasDouble(s) {
      var i :| 0 <= i < |s| - 1 && DoubleAt(s, i);
      assert s == s[..i] + "__" + s[i + 2..];
    }
    if x, y :| s == x + "__" + y {
      assert s[|x|] == '_' && s[|x| + 1] == '_';
      assert DoubleAt(s, |x|);
    }
  }

  /** The name a tool call is dispatched under: the parsed name, or the plain replacement when parsing fails. */
  function DispatchName(wire: string): string {
    var parsed := ParseName(Unmangle(wire));
    if parsed.Ok? then parsed.value else Replace(wire, "__", "/")
  }

  /** The fallback is reached only for the empty name, and calls for safe names come back under the names they went out
      with. */
  lemma DispatchUndoesMangling(wire: string, name: string)
    ensures ParseName(Unmangle(wire)).Err? <==> wire == []
    ensures DispatchName(wire) == Unmangle(wire)
    ensures DispatchName(Mangle(name)) == name <==> Safe(name)
  {
    UnmangledHasNoDouble(wire);
    UnmangledHasNoDouble(Mangle(name));
    RoundTripIffSafe(name);
  }

  // What one reply of the model asks for.

  datatype StopReason = EndTurn | StopSequence | ToolUse | MaxTokens

  /** A content block, with the fields the interpreter looks at. */
  datatype Block = Block(kind: Option<string>, text: Option<string>, name: Option<string>, id: Option<string>,
                         input: string)

  datatype ToolCall = ToolCall(callId: string, name: string, args: string)

  datatype TurnAction = ReturnResult(text: string) | DispatchTools(calls: seq<ToolCall>) | SummariseContext

  function OrEmpty(s: Option<string>): string {
    if s.Some? then s.value else ""
  }

  function JoinText(content: seq<Block>): string {
    if content == [] then [] else OrEmpty(content[0].text) + JoinText(content[1..])
  }

  function ToolCalls(content: seq<Block>): seq<ToolCall> {
    if content == [] then []
    else
      var b := content[0];
      var rest := ToolCalls(content[1..]);
      if b.kind == Some("tool_use")
      then [ToolCall(OrEmpty(b.id), DispatchName(OrEmpty(b.name)), b.input)] + rest
      else rest
  }

  function InterpretStopReason(reason: StopReason, content: seq<Block>): TurnAction {
    match reason
    case EndTurn => ReturnResult(JoinText(content))
    case StopSequence => ReturnResult(JoinText(content))
    case ToolUse => DispatchTools(ToolCalls(content))
    case MaxTokens => SummariseContext
  }

  lemma {:induction false} JoinAppend(a: seq<Block>, b: seq<Block>)
    ensures JoinText(a + b) == JoinText(a) + JoinText(b)
    ensures ToolCalls(a + b) == ToolCalls(a) + ToolCalls(b)
  {
    if a == [] {
      assert a + b == b;
    } else {
      assert (a + b)[1..] == a[1..] + b && (a + b)[0] == a[0];
      JoinAppend(a[1..], b);
      Associates(OrEmpty(a[0].text), JoinText(a[1..]), JoinText(b));
      Associates(if a[0].kind == Some("tool_use")
                 then [ToolCall(OrEmpty(a[0].id), DispatchName(OrEmpty(a[0].name)), a[0].input)] else [],
                 ToolCalls(a[1..]), ToolCalls(b));
    }
  }

  lemma OneBlock(b: Block)
    ensures JoinText([b]) == if b.text.Some? then b.text.value else ""
    ensures ToolCalls([b]) ==
      if b.kind != Some("tool_use") then []
      else [ToolCall(if b.id.Some? then b.id.value else "", if b.name.Some? then Unmangle(b.name.value)
        else "", b.input)]
  {
    assert [b][1..] == [];
    assert JoinText([b]) == OrEmpty(b.text) + [] == OrEmpty(b.text);
    DispatchUndoesMangling(OrEmpty(b.name), []);
    assert Unmangle("") == "";
  }

  /** A finished turn returns the texts of the blocks, in order and without anything for a block that has none. */
  lemma FinishedTurnJoinsText(before: seq<Block>, b: Block, after: seq<Block>)
    ensures var content := before + [b] + after;
      && InterpretStopReason(EndTurn, content) == InterpretStopReason(StopSequence, content)
      && InterpretStopReason(EndTurn, content)
         == ReturnResult(JoinText(before) + (if b.text.Some? then b.text.value else "") + JoinText(after))
    ensures InterpretStopReason(EndTurn, []) == ReturnResult("")
  {
    JoinAppend(before + [b], after);
    JoinAppend(before, [b]);
    OneBlock(b);
  }

  /** A tool turn dispatches one call per tool use, in order, under the unmangled name, with nothing for a missing id or
      name; a reply cut off by the token limit asks for a summary instead. */
  lemma ToolTurnDispatches(before: seq<Block>, b: Block, after: seq<Block>)
    ensures InterpretStopReason(ToolUse, before + [b] + after) == DispatchTools(
      ToolCalls(before)
      + (if b.kind != Some("tool_use") then []
         else [ToolCall(if b.id.Some? then b.id.value else "", if b.name.Some? then Unmangle(b.name.value) else "",
                        b.input)])
      + ToolCalls(after))
    ensures InterpretStopReason(ToolUse, []) == DispatchTools([])
    ensures InterpretStopReason(MaxTokens, before) == SummariseContext
  {
    JoinAppend(before + [b], after);
    JoinAppend(before, [b]);
    OneBlock(b);
  }

  /** The blocks in which a provider reports these calls, under their wire names. */
  function ToBlocks(calls: seq<ToolCall>): seq<Block> {
    seq(|calls|, i requires 0 <= i < |calls| =>
      Block(Some("tool_use"), None, Some(Mangle(calls[i].name)), Some(calls[i].callId), calls[i].args))
  }

  /** `content` is these blocks in order, mixed with blocks that are not tool uses. */
  predicate Interleaves(content: seq<Block>, uses: seq<Block>) {
    if content == [] then uses == []
    else if content[0].kind == Some("tool_use") then uses != [] && content[0] == uses[0]
      && Interleaves(content[1..], uses[1..])
    else Interleaves(content[1..], uses)
  }

  /** Calls for safe names are dispatched as they were meant, in order, whatever else the reply contains. */
  lemma {:induction false} ToolCallsRoundTrip(content: seq<Block>, calls: seq<ToolCall>)
    requires forall i :: 0 <= i < |calls| ==> Safe(calls[i].name)
    requires Interleaves(content, ToBlocks(calls))
    ensures InterpretStopReason(ToolUse, content) == DispatchTools(calls)
    decreases |content|
  {
    if content != [] {
      if content[0].kind == Some("tool_use") {
        assert ToBlocks(calls)[1..] == ToBlocks(calls[1..]);
        ToolCallsRoundTrip(content[1..], calls[1..]);
        DispatchUndoesMangling([], calls[0].name);
        assert ToBlocks(calls)[0].name == Some(Mangle(calls[0].name));
        assert calls == [calls[0]] + calls[1..];
      } else {
        ToolCallsRoundTrip(content[1..], calls);
      }
    } else {
      assert |ToBlocks(calls)| == |calls|;
    }
  }
}

/** The tool list an agent shows to the model, minus the tools that have been taken away from it. */
module ToolManager {
  import opened Common
  import opened ToolNames

  datatype Descriptor = Descriptor(name: Option<string>, body: string)

  datatype Change = Change(op: string, tool: string)

  predicate NoDuplicates<T(==)>(s: seq<T>) {
    forall i, j :: 0 <= i < j < |s| ==> s[i] != s[j]
  }

  function Without(s: seq<string>, x: string): seq<string> {
    if s == [] then [] else (if s[0] == x then [] else [s[0]]) + Without(s[1..], x)
  }

  function AfterChange(removed: seq<string>, c: Change): seq<string> {
    if c.op == "removed" then (if c.tool in removed then removed else removed + [c.tool])
    else if c.op == "added" then Without(removed, c.tool)
    else removed
  }

  function RemovedAfter(changes: seq<Change>): seq<string> {
    if changes == [] then [] else AfterChange(RemovedAfter(changes[..|changes| - 1]), changes[|changes| - 1])
  }

  /** The latest change that concerns this tool took it away. */
  ghost predicate LastRemoved(changes: seq<Change>, tool: string) {
    exists i :: 0 <= i < |changes| && changes[i] == Change("removed", tool)
      && forall j :: i < j < |changes| ==> changes[j] != Change("added", tool)
  }

  lemma {:induction false} WithoutRemoves(s: seq<string>, x: string)
    ensures forall y :: y in Without(s, x) <==> y in s && y != x
    ensures NoDuplicates(s) ==> NoDuplicates(Without(s, x))
  {
    if s != [] {
      WithoutRemoves(s[1..], x);
      assert forall y :: y in s <==> y == s[0] || y in s[1..];
      if NoDuplicates(s) {
        assert s[0] !in s[1..];
        var rest := Without(s[1..], x);
        assert forall i :: 0 <= i < |rest| ==> rest[i] in rest;
      }
    }
  }

  lemma LastRemovedOneMore(before: seq<Change>, c: Change, tool: string)
    ensures LastRemoved(before + [c], tool)
      <==> c == Change("removed", tool) || (LastRemoved(before, tool) && c != Change("added", tool))
  {
    var changes, n := before + [c], |before|;
    assert changes[n] == c && forall i :: 0 <= i < n ==> changes[i] == before[i];
    if LastRemoved(before, tool) && c != Change("added", tool) {
      var i :| 0 <= i < n && before[i] == Change("removed", tool)
        && forall j :: i < j < n ==> before[j] != Change("added", tool);
      assert changes[i] == Change("removed", tool);
    }
    if LastRemoved(changes, tool) && c != Change("removed", tool) {
      var i :| 0 <= i < |changes| && changes[i] == Change("removed", tool)
        && forall j :: i < j < |changes| ==> changes[j] != Change("added", tool);
      assert before[i] == Change("removed", tool);
    }
  }

  lemma AfterChangeIsExact(removed: seq<string>, c: Change, tool: string)
    requires NoDuplicates(removed)
    ensures NoDuplicates(AfterChange(removed, c))
    ensures tool in AfterChange(removed, c)
      <==> c == Change("removed", tool) || (tool in removed && c != Change("added", tool))
  {
    WithoutRemoves(removed, c.tool);
  }

  /** After every history of changes the list is duplicate-free and holds exactly the tools taken away last. */
  lemma {:induction false} RemovedIsExact(changes: seq<Change>, tool: string)
    ensures NoDuplicates(RemovedAfter(changes))
    ensures tool in RemovedAfter(changes) <==> LastRemoved(changes, tool)
    decreases |changes|
  {
    if changes != [] {
      var n := |changes| - 1;
      RemovedIsExact(changes[..n], tool);
      AfterChangeIsExact(RemovedAfter(changes[..n]), changes[n], tool);
      LastRemovedOneMore(changes[..n], changes[n], tool);
      assert changes == changes[..n] + [changes[n]];
    }
  }

  /** The names that are not removed. */
  function Kept(names: seq<string>, removed: seq<string>): seq<string> {
    if names == [] then []
    else
      var n := |names| - 1;
      Kept(names[..n], removed) + if names[n] in removed then [] else [names[n]]
  }

  /** Every name that is not removed stays as often as it occurs, */
  lemma {:induction false} KeptIsExact(names: seq<string>, removed: seq<string>, name: string)
    ensures multiset(Kept(names, removed))[name] == if name in removed then 0 else multiset(names)[name]
    decreases |names|
  {
    if names != [] {
      var n := |names| - 1;
      KeptIsExact(names[..n], removed, name);
      assert names == names[..n] + [names[n]];
    }
  }

  /** and in its place. */
  lemma {:induction false} KeptKeepsOrder(front: seq<string>, back: seq<string>, removed: seq<string>)
    ensures Kept(front + back, removed) == Kept(front, removed) + Kept(back, removed)
    decreases |back|
  {
    if back == [] {
      assert front + back == front;
    } else {
      var n := |back| - 1;
      KeptKeepsOrder(front, back[..n], removed);
      assert (front + back)[..|front| + n] == front + back[..n] && (front + back)[|front| + n] == back[n];
      Associates(Kept(front, removed), Kept(back[..n], removed), if back[n] in removed then [] else [back[n]]);
    }
  }

  ghost predicate Describes(list: seq<Descriptor>, names: seq<string>, describe: string -> Descriptor) {
    |list| == |names| && forall i :: 0 <= i < |names| ==> list[i] == describe(names[i])
  }

  ghost predicate LooksUp(list: seq<Descriptor>, names: seq<string>, registry: map<string, Descriptor>) {
    |list| == |names| && forall i :: 0 <= i < |names| ==> names[i] in registry && list[i] == registry[names[i]]
  }

  /** The filter: a descriptor is hidden if its name is a removed name, native or mangled. */
  predicate Hidden(d: Descriptor, removed: seq<string>) {
    d.name.Some? && exists i :: 0 <= i < |removed| && (d.name.value == removed[i] || d.name.value == Mangle(removed[i]))
  }

  function Visible(list: seq<Descriptor>, removed: seq<string>): seq<Descriptor> {
    if list == [] then []
    else (if Hidden(list[0], removed) then [] else [list[0]]) + Visible(list[1..], removed)
  }

  /** Exactly the hidden descriptors are left out, and the rest keep their order. */
  lemma {:induction false} VisibleIsExact(front: seq<Descriptor>, back: seq<Descriptor>, removed: seq<string>)
    ensures Visible(front + back, removed) == Visible(front, removed) + Visible(back, removed)
    ensures forall d :: d in Visible(front, removed) <==> d in front && !Hidden(d, removed)
  {
    if front == [] {
      assert front + back == back;
    } else {
      assert (front + back)[1..] == front[1..] + back;
      VisibleIsExact(front[1..], back, removed);
      var first := if Hidden(front[0], removed) then [] else [front[0]];
      Associates(first, Visible(front[1..], removed), Visible(back, removed));
      assert forall d :: d in front <==> d == front[0] || d in front[1..];
    }
  }

  lemma {:induction false} MangledSlashHasDouble(name: string)
    ensures '/' in name ==> HasDouble(Mangle(name))
    ensures '/' !in name ==> Mangle(name) == name
  {
    if name != [] {
      MangleHead(name);
      MangledSlashHasDouble(name[1..]);
      var wire, tail := Mangle(name), Mangle(name[1..]);
      if name[0] == '/' {
        assert DoubleAt(wire, 0);
      } else {
        assert wire == [name[0]] + tail;
        if HasDouble(tail) {
          var i :| 0 <= i < |tail| - 1 && DoubleAt(tail, i);
          assert DoubleAt(wire, i + 1);
        }
      }
    }
  }

  /** A list of native names loses exactly the removed ones. */
  lemma NativeHiddenIffRemoved(name: string, body: string, removed: seq<string>)
    requires !HasDouble(name)
    ensures Hidden(Descriptor(Some(name), body), removed) <==> name in removed
  {
    forall i | 0 <= i < |removed| ensures name == Mangle(removed[i]) ==> name == removed[i] {
      MangledSlashHasDouble(removed[i]);
    }
  }

  lemma {:induction false} MangleUndoesUnmangling(wire: string)
    requires '/' !in wire
    ensures Mangle(Unmangle(wire)) == wire
    decreases |wire|
  {
    if wire != [] {
      var out := Unmangle(wire);
      if "__" <= wire {
        MangleUndoesUnmangling(wire[2..]);
        assert out == "/" + Unmangle(wire[2..]);
        assert out[1..] == Unmangle(wire[2..]);
        MangleHead(out);
        assert wire == "__" + wire[2..];
      } else {
        MangleUndoesUnmangling(wire[1..]);
        assert out == [wire[0]] + Unmangle(wire[1..]);
        assert out[1..] == Unmangle(wire[1..]);
        assert wire[0] in wire;
        MangleHead(out);
        assert wire == [wire[0]] + wire[1..];
      }
    }
  }

  lemma {:induction false} MangledHasNoSlash(name: string)
    ensures '/' !in Mangle(name)
  {
    if name != [] {
      MangleHead(name);
      MangledHasNoSlash(name[1..]);
    }
  }

  /** A native name is always hidden exactly when it is removed, except one that could be a mangled name. */
  lemma {:induction false} NativeFilterIsExactIff(name: string, body: string)
    ensures (forall removed :: Hidden(Descriptor(Some(name), body), removed) <==> name in removed)
      <==> '/' in name || !HasDouble(name)
  {
    if '/' in name {
      forall removed ensures Hidden(Descriptor(Some(name), body), removed) <==> name in removed {
        forall i | 0 <= i < |removed| ensures name != Mangle(removed[i]) { MangledHasNoSlash(removed[i]); }
      }
    } else if HasDouble(name) {
      MangleUndoesUnmangling(name);
      UnmangledHasNoDouble(name);
      var removed := [Unmangle(name)];
      assert removed[0] != name && name == Mangle(removed[0]);
      assert Hidden(Descriptor(Some(name), body), removed) && name !in removed;
    } else {
      forall removed ensures Hidden(Descriptor(Some(name), body), removed) <==> name in removed {
        NativeHiddenIffRemoved(name, body, removed);
      }
    }
  }

  /** A list of mangled names loses exactly the removed ones too, when all names are safe. */
  lemma MangledHiddenIffRemoved(name: string, body: string, removed: seq<string>)
    requires Safe(name) && forall i :: 0 <= i < |removed| ==> Safe(removed[i])
    ensures Hidden(Descriptor(Some(Mangle(name)), body), removed) <==> name in removed
  {
    MangledSlashHasDouble(name);
    forall i | 0 <= i < |removed|
      ensures (Mangle(name) == removed[i] || Mangle(name) == Mangle(removed[i])) ==> name == removed[i]
    {
      assert Safe(removed[i]);
      if Mangle(name) == removed[i] {
        SafeHasNoDouble(removed[i]);
      } else if Mangle(name) == Mangle(removed[i]) {
        MangleIsInjectiveOnSafe(name, removed[i]);
      }
    }
  }

  // When the mangled list is filtered exactly, for names that the code's own validation lets through.

  predicate IsSeparator(c: char) {
    c == '_' || c == '/'
  }

  /** Two neighbouring characters are separators: the name contains `__`, `_/`, `/_` or `//`. */
  predicate TouchAt(s: string, i: int) {
    0 <= i < |s| - 1 && IsSeparator(s[i]) && IsSeparator(s[i + 1])
  }

  predicate Apart(s: string) {
    forall i :: 0 <= i < |s| - 1 ==> !TouchAt(s, i)
  }

  lemma ApartRest(s: string)
    requires s != [] && Apart(s)
    ensures Apart(s[1..]) && (|s| > 1 && IsSeparator(s[0]) ==> !IsSeparator(s[1]))
  {
    forall i | 0 <= i < |s[1..]| - 1 ensures !TouchAt(s[1..], i) { assert !TouchAt(s, i + 1); }
    if |s| > 1 { assert !TouchAt(s, 0); }
  }

  lemma NoDoubleRest(s: string)
    requires s != [] && !HasDouble(s)
    ensures !HasDouble(s[1..]) && !("__" <= s)
  {
    forall i | 0 <= i < |s[1..]| - 1 ensures !DoubleAt(s[1..], i) { assert !DoubleAt(s, i + 1); }
    DoublePrefix(s);
    if |s| > 1 { assert !DoubleAt(s, 0); }
  }

  /** On the wire a separator that stands apart is a run of one or two underscores and no more. */
  lemma ApartWire(name: string)
    requires name != [] && Apart(name)
    ensures var wire := Mangle(name);
      && (name[0] == '_' ==> |wire| == 1 || wire[1] != '_')
      && (name[0] == '/' ==> |wire| >= 2 && wire[1] == '_' && (|wire| == 2 || wire[2] != '_'))
  {
    ApartRest(name);
    MangleHead(name);
    MangleFirst(name[1..]);
  }

  /** Without `__`, an underscore is alone on the wire or followed by two more. */
  lemma NoDoubleWire(r: string)
    requires r != [] && !HasDouble(r)
    ensures var wire := Mangle(r);
      && (r[0] == '/' ==> |wire| >= 2 && wire[1] == '_')
      && (r[0] == '_' ==> |wire| == 1 || wire[1] != '_' || (|wire| >= 3 && wire[2] == '_'))
  {
    NoDoubleRest(r);
    DoublePrefix(r);
    MangleHead(r);
    MangleFirst(r[1..]);
    if |r| > 1 {
      MangleHead(r[1..]);
    }
  }

  /** Two names with one wire name start alike, if separators of the first stand apart and the second has no `__`. */
  lemma SameHead(name: string, r: string)
    requires name != [] && Apart(name) && !HasDouble(r) && Mangle(r) == Mangle(name)
    ensures r != [] && r[0] == name[0] && Mangle(r[1..]) == Mangle(name[1..])
  {
    MangleFirst(name);
    MangleFirst(r);
    ApartWire(name);
    NoDoubleWire(r);
    assert r[0] == name[0];
    MangleHead(name);
    MangleHead(r);
    var wire, n := Mangle(name), if name[0] == '/' then 2 else 1;
    assert wire[n..] == Mangle(name[1..]) && wire[n..] == Mangle(r[1..]);
  }

  lemma {:induction false} ApartHasOneName(name: string, r: string)
    requires Apart(name) && !HasDouble(r) && Mangle(r) == Mangle(name)
    ensures r == name
    decreases |name|
  {
    if name == [] {
      MangleFirst(name);
      MangleFirst(r);
    } else {
      SameHead(name, r);
      ApartRest(name);
      NoDoubleRest(r);
      ApartHasOneName(name[1..], r[1..]);
      assert r == [r[0]] + r[1..] && name == [name[0]] + name[1..];
    }
  }

  lemma JoinWithoutDouble(a: string, b: string)
    requires !HasDouble(a) && !HasDouble(b) && (a == [] || b == [] || a[|a| - 1] != '_' || b[0] != '_')
    ensures !HasDouble(a + b)
  {
    forall i | 0 <= i < |a + b| - 1 ensures !DoubleAt(a + b, i) {
      if i < |a| - 1 {
        assert !DoubleAt(a, i);
      } else if i >= |a| {
        assert !DoubleAt(b, i - |a|);
      }
    }
  }

  lemma PartsHaveNoDouble(a: string, b: string)
    requires !HasDouble(a + b)
    ensures !HasDouble(a) && !HasDouble(b)
    ensures a != [] && b != [] ==> a[|a| - 1] != '_' || b[0] != '_'
  {
    forall i | 0 <= i < |a| - 1 ensures !DoubleAt(a, i) { assert !DoubleAt(a + b, i); }
    forall i | 0 <= i < |b| - 1 ensures !DoubleAt(b, i) { assert !DoubleAt(a + b, |a| + i); }
    if a != [] && b != [] { assert !DoubleAt(a + b, |a| - 1); }
  }

  /** Exchanging the middle of a name for one that looks the same on the wire. */
  lemma OtherMiddle(x: string, was: string, mid: string, y: string)
    requires !HasDouble(x + was + y) && Mangle(mid) == Mangle(was) && mid != was && mid != [] && !HasDouble(mid)
    requires x == [] || x[|x| - 1] != '_' || mid[0] != '_'
    requires y == [] || y[0] != '_' || mid[|mid| - 1] != '_'
    ensures !HasDouble(x + mid + y) && Mangle(x + mid + y) == Mangle(x + was + y) && x + mid + y != x + was + y
  {
    PartsHaveNoDouble(x + was, y);
    PartsHaveNoDouble(x, was);
    JoinWithoutDouble(x, mid);
    JoinWithoutDouble(x + mid, y);
    MangleAppend(x + mid, y);
    MangleAppend(x, mid);
    MangleAppend(x + was, y);
    MangleAppend(x, was);
    if x + mid + y == x + was + y {
      MiddleIsSame(x, mid, was, y);
    }
  }

  lemma MiddleIsSame(x: string, a: string, b: string, y: string)
    requires x + a + y == x + b + y
    ensures a == b
  {
    assert |a| == |b|;
    assert a == (x + a + y)[|x|..|x| + |a|] && b == (x + b + y)[|x|..|x| + |b|];
  }

  lemma MangledMiddles()
    ensures Mangle("_/") == Mangle("/_") == "___"
    ensures Mangle("//") == Mangle("_/_") == "____"
    ensures Mangle("/_/") == Mangle("//_") == "_____"
    ensures !HasDouble("_/") && !HasDouble("/_") && !HasDouble("//") && !HasDouble("_/_") && !HasDouble("/_/")
  {
    MangleAppend("_", "/");
    MangleAppend("/", "_");
    MangleAppend("/", "/");
    MangleAppend("_/", "_");
    MangleAppend("/_", "/");
    MangleAppend("//", "_");
    MangleHead("_");
    MangleHead("/");
    assert Mangle("_") == "_" && Mangle("/") == "__" by { assert "_"[1..] == [] && "/"[1..] == []; }
    assert "_/" == "_" + "/" && "/_" == "/" + "_" && "//" == "/" + "/";
    assert "_/_" == "_/" + "_" && "/_/" == "/_" + "/" && "//_" == "//" + "_";
  }

  lemma FirstTouch(s: string) returns (i: nat)
    requires !Apart(s)
    ensures i < |s| - 1 && TouchAt(s, i) && (i > 0 ==> !IsSeparator(s[i - 1]))
  {
    i :| i < |s| - 1 && TouchAt(s, i);
    while i > 0 && IsSeparator(s[i - 1])
      invariant i < |s| - 1 && TouchAt(s, i)
    {
      i := i - 1;
    }
  }

  /** An underscore behind the first two touching separators. */
  lemma ThreeCollide(x: string, pair: string, z: string) returns (r: string)
    requires pair == "//" || pair == "_/"
    requires !HasDouble(x + (pair + "_") + z) && (x == [] || !IsSeparator(x[|x| - 1]))
    ensures r != x + (pair + "_") + z && !HasDouble(r) && Mangle(r) == Mangle(x + (pair + "_") + z)
  {
    MangledMiddles();
    PartsHaveNoDouble(x + (pair + "_"), z);
    assert z == [] || z[0] != '_';
    if pair == "//" {
      assert pair + "_" == "//_";
      OtherMiddle(x, "//_", "/_/", z);
      r := x + "/_/" + z;
    } else {
      assert pair + "_" == "_/_";
      OtherMiddle(x, "_/_", "//", z);
      r := x + "//" + z;
    }
  }

  /** No underscore behind them. */
  lemma TwoCollide(x: string, pair: string, y: string) returns (r: string)
    requires pair == "//" || pair == "_/" || pair == "/_"
    requires !HasDouble(x + pair + y) && (x == [] || !IsSeparator(x[|x| - 1])) && (y == [] || y[0] != '_')
    ensures r != x + pair + y && !HasDouble(r) && Mangle(r) == Mangle(x + pair + y)
  {
    MangledMiddles();
    var mid := if pair == "_/" then "/_" else if pair == "/_" then "_/" else "_/_";
    OtherMiddle(x, pair, mid, y);
    r := x + mid + y;
  }

  /** A name without `__` in which separators touch shares its wire name with another such name. */
  lemma TouchingCollides(name: string) returns (r: string)
    requires !HasDouble(name) && !Apart(name)
    ensures r != name && !HasDouble(r) && Mangle(r) == Mangle(name)
  {
    var i := FirstTouch(name);
    var x, pair, y := name[..i], name[i..i + 2], name[i + 2..];
    assert name == x + pair + y && pair == [name[i], name[i + 1]];
    assert !DoubleAt(name, i);
    if y != [] && y[0] == '_' {
      assert !DoubleAt(name, i + 1);
      assert name == x + (pair + "_") + y[1..];
      r := ThreeCollide(x, pair, y[1..]);
    } else {
      r := TwoCollide(x, pair, y);
    }
  }

  ghost predicate NoDoubles(names: seq<string>) {
    forall i :: 0 <= i < |names| ==> !HasDouble(names[i])
  }

  lemma ApartHiddenIffRemoved(name: string, body: string, removed: seq<string>)
    requires !HasDouble(name) && Apart(name) && NoDoubles(removed)
    ensures Hidden(Descriptor(Some(Mangle(name)), body), removed) <==> name in removed
  {
    MangledSlashHasDouble(name);
    forall i | 0 <= i < |removed|
      ensures (Mangle(name) == removed[i] || Mangle(name) == Mangle(removed[i])) ==> name == removed[i]
    {
      assert !HasDouble(removed[i]);
      if Mangle(name) == Mangle(removed[i]) {
        ApartHasOneName(name, removed[i]);
      }
    }
  }

  /** For names without `__`, a mangled name is hidden exactly when it is removed, whatever else is removed, exactly
      when no two of its separators touch. */
  lemma MangledFilterIsExactIff(name: string, body: string)
    requires !HasDouble(name)
    ensures (forall removed :: NoDoubles(removed) ==>
               (Hidden(Descriptor(Some(Mangle(name)), body), removed) <==> name in removed))
      <==> Apart(name)
  {
    if Apart(name) {
      forall removed | NoDoubles(removed)
        ensures Hidden(Descriptor(Some(Mangle(name)), body), removed) <==> name in removed
      {
        ApartHiddenIffRemoved(name, body, removed);
      }
    } else {
      var r := TouchingCollides(name);
      var removed := [r];
      assert NoDoubles(removed) && removed[0] == r && name !in removed;
      assert Hidden(Descriptor(Some(Mangle(name)), body), removed);
    }
  }

  lemma SafeHasNoDouble(s: string)
    requires Safe(s)
    ensures !HasDouble(s)
  {
    forall i | 0 <= i < |s| - 1 ensures !DoubleAt(s, i) {
      assert !Ambiguous(s, i);
    }
  }

  class ToolManager {
    var toolList: seq<Descriptor>
    var removed: seq<string>
    ghost var changes: seq<Change>

    ghost predicate Valid()
      reads this
    {
      removed == RemovedAfter(changes)
    }

    constructor ()
      ensures Valid() && toolList == [] && removed == [] && changes == []
    {
      toolList, removed, changes := [], [], [];
    }

    method HandleToolChanged(op: string, tool: string)
      requires Valid()
      modifies this`removed, this`changes
      ensures Valid() && changes == old(changes) + [Change(op, tool)]
      ensures NoDuplicates(removed)
      ensures forall t :: t in removed <==> LastRemoved(changes, t)
    {
      changes := changes + [Change(op, tool)];
      assert changes[..|changes| - 1] == old(changes);
      if op == "removed" {
        if tool !in removed {
          removed := removed + [tool];
        }
      } else if op == "added" {
        var kept: seq<string> := [];
        for i := 0 to |removed|
          invariant kept + Without(removed[i..], tool) == Without(removed, tool)
        {
          assert removed[i..][1..] == removed[i + 1..];
          if removed[i] != tool {
            kept := kept + [removed[i]];
          }
        }
        removed := kept;
      }
      forall t ensures t in removed <==> LastRemoved(changes, t) {
        RemovedIsExact(changes, t);
      }
      RemovedIsExact(changes, tool);
    }

    /** Rebuild the list: the agent's own tools in order, then those of the registry in the order of its map, each
        once. */
    method RefreshToolList(own: seq<string>, describe: string -> Descriptor, registry: map<string, Descriptor>,
                           order: seq<string>)
      requires Valid() && Enumerates(order, registry.Keys)
      modifies this`toolList
      ensures Valid()
      ensures var n := |Kept(own, removed)|;
        && n <= |toolList|
        && Describes(toolList[..n], Kept(own, removed), describe)
        && LooksUp(toolList[n..], Kept(order, removed), registry)
      ensures forall t :: t in removed <==> LastRemoved(changes, t)
    {
      forall t ensures t in removed <==> LastRemoved(changes, t) {
        RemovedIsExact(changes, t);
      }
      var mine := ListOwn(own, describe);
      var theirs := ListRegistry(order, registry);
      toolList := mine + theirs;
      assert toolList[..|mine|] == mine && toolList[|mine|..] == theirs;
    }

    method ListOwn(own: seq<string>, describe: string -> Descriptor) returns (list: seq<Descriptor>)
      ensures Describes(list, Kept(own, removed), describe)
    {
      list := [];
      for i := 0 to |own|
        invariant Describes(list, Kept(own[..i], removed), describe)
      {
        assert own[..i + 1][..i] == own[..i];
        if own[i] !in removed {
          list := list + [describe(own[i])];
        }
      }
      assert own[..|own|] == own;
    }

    method ListRegistry(order: seq<string>, registry: map<string, Descriptor>) returns (list: seq<Descriptor>)
      requires forall i :: 0 <= i < |order| ==> order[i] in registry
      ensures LooksUp(list, Kept(order, removed), registry)
    {
      list := [];
      for i := 0 to |order|
        invariant LooksUp(list, Kept(order[..i], removed), registry)
      {
        assert order[..i + 1][..i] == order[..i];
        if order[i] !in removed {
          list := list + [registry[order[i]]];
        }
      }
      assert order[..|order|] == order;
    }

    method CurrentToolList() returns (list: seq<Descriptor>)
      ensures list == Visible(toolList, removed)
    {
      list := [];
      for i := 0 to |toolList|
        invariant list + Visible(toolList[i..], removed) == Visible(toolList, removed)
      {
        assert toolList[i..][1..] == toolList[i + 1..];
        if !Hidden(toolList[i], removed) {
          Associates(list, [toolList[i]], Visible(toolList[i + 1..], removed));
          list := list + [toolList[i]];
        } else {
          assert Visible(toolList[i..], removed) == Visible(toolList[i + 1..], removed);
        }
      }
    }
  }
}
