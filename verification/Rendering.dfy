/**
 Placeholder substitution. Both renderers replace one key after another, in the arbitrary order of a hash map: manifest
 goals use `{{key}}`, cron goals use `{key}`.
 */
module Rendering {
  import opened Common

  /** How many braces open and close a placeholder. */
  datatype Style = Single | Double

  function Opening(style: Style): string {
    if style.Single? then "{" else "{{"
  }

  function Closing(style: Style): string {
    if style.Single? then "}" else "}}"
  }

  function Placeholder(style: Style, key: string): string {
    Opening(style) + key + Closing(style)
  }

  /** The two spellings: `{key}`, and the same with one more brace on either side. */
  lemma DoubleWrapsSingle(key: string)
    ensures Placeholder(Single, key) == "{" + key + "}"
    ensures Placeholder(Double, key) == "{" + Placeholder(Single, key) + "}"
  {
    assert "{{" == "{" + "{" && "}}" == "}" + "}";
    assert Placeholder(Double, key) == "{" + ("{" + key + "}") + "}";
  }

  datatype Binding = Binding(key: string, value: string)

  /** The effect of the loop: each replacement works on the output of the one before. */
  function ReplaceInOrder(style: Style, text: string, vars: seq<Binding>): string
    decreases |vars|
  {
    if vars == [] then text
    else ReplaceInOrder(style, Replace(text, Placeholder(style, vars[0].key), vars[0].value), vars[1..])
  }

  /** Both render loops. */
  method Render(style: Style, template: string, vars: seq<Binding>) returns (text: string)
    ensures text == ReplaceInOrder(style, template, vars)
  {
    text := template;
    for i := 0 to |vars|
      invariant ReplaceInOrder(style, text, vars[i..]) == ReplaceInOrder(style, template, vars)
    {
      assert vars[i..][1..] == vars[i + 1..];
      text := Replace(text, Placeholder(style, vars[i].key), vars[i].value);
    }
  }

  // A template as its author sees it: text and placeholders.

  datatype Segment = Lit(text: string) | Hole(key: string)

  predicate BraceFree(s: string) {
    '{' !in s && '}' !in s
  }

  predicate WellFormed(segments: seq<Segment>) {
    forall i :: 0 <= i < |segments| ==>
      if segments[i].Lit? then BraceFree(segments[i].text) else BraceFree(segments[i].key)
  }

  function Write(style: Style, segment: Segment): string {
    match segment
    case Lit(text) => text
    case Hole(key) => Placeholder(style, key)
  }

  function Flatten(style: Style, segments: seq<Segment>): string {
    if segments == [] then [] else Write(style, segments[0]) + Flatten(style, segments[1..])
  }

  /** One simultaneous substitution: every placeholder with a value becomes that value, every other stays. */
  function Fill(segment: Segment, vars: map<string, string>): Segment {
    if segment.Hole? && segment.key in vars then Lit(vars[segment.key]) else segment
  }

  function Substitute(segments: seq<Segment>, vars: map<string, string>): seq<Segment> {
    seq(|segments|, i requires 0 <= i < |segments| => Fill(segments[i], vars))
  }

  /** `order` lists every entry of the map exactly once. */
  ghost predicate Orders(order: seq<Binding>, vars: map<string, string>) {
    && (forall i :: 0 <= i < |order| ==> order[i].key in vars && vars[order[i].key] == order[i].value)
    && (forall k :: k in vars ==> exists i :: 0 <= i < |order| && order[i].key == k)
    && (forall i, j :: 0 <= i < j < |order| ==> order[i].key != order[j].key)
  }

  /** A key whose placeholder cannot be pieced together from other placeholders of a template. */
  predicate Harmless(style: Style, key: string) {
    BraceFree(key) || !Closed(style, Placeholder(style, key))
  }

  ghost predicate Substitutable(style: Style, vars: map<string, string>) {
    forall k :: k in vars ==> Harmless(style, k) && BraceFree(vars[k])
  }

  // Proofs: where a placeholder can match.

  /** No match starts inside text without an opening brace. */
  lemma {:induction false} ReplaceSkips(lit: string, rest: string, pat: string, to: string)
    requires pat != [] && pat[0] !in lit
    ensures Replace(lit + rest, pat, to) == lit + Replace(rest, pat, to)
  {
    if lit == [] {
      assert lit + rest == rest;
    } else {
      assert (lit + rest)[1..] == lit[1..] + rest;
      ReplaceSkips(lit[1..], rest, pat, to);
      assert (lit + rest)[0] != pat[0];
    }
  }

  lemma ReplaceMatches(rest: string, pat: string, to: string)
    requires pat != []
    ensures Replace(pat + rest, pat, to) == to + Replace(rest, pat, to)
  {
    assert (pat + rest)[|pat|..] == rest;
    assert pat <= pat + rest;
  }

  /** A placeholder matches at the start of another only if the keys are equal. */
  lemma MatchNeedsSameKey(style: Style, key: string, other: string, rest: string)
    requires BraceFree(key) && BraceFree(other)
    requires Placeholder(style, key) <= Placeholder(style, other) + rest
    ensures key == other
  {
    var n := |Opening(style)|;
    var p, q := Placeholder(style, key), Placeholder(style, other) + rest;
    assert p[n + |key|] == '}' && q[n + |other|] == '}';
    assert forall i :: 0 <= i < |key| ==> p[n + i] == key[i] && key[i] in key;
    assert forall i :: 0 <= i < |other| ==> q[n + i] == other[i] && other[i] in other;
    assert |key| == |other|;
    assert forall i :: 0 <= i < |key| ==> key[i] == p[n + i] == q[n + i] == other[i];
  }

  lemma ReplaceSkipsOne(c: char, rest: string, pat: string, to: string)
    requires pat != [] && !(pat <= [c] + rest)
    ensures Replace([c] + rest, pat, to) == [c] + Replace(rest, pat, to)
  {
    assert ([c] + rest)[1..] == rest;
  }

  lemma PlaceholderTail(style: Style, key: string)
    ensures Placeholder(style, key)[1..] == (if style.Single? then [] else "{") + (key + Closing(style))
  {
  }

  /** The rest of a placeholder, after its first character, holds no match of any placeholder. */
  lemma ReplaceSkipsRest(style: Style, key: string, other: string, rest: string, to: string)
    requires BraceFree(other)
    ensures Replace(Placeholder(style, other)[1..] + rest, Placeholder(style, key), to)
      == Placeholder(style, other)[1..] + Replace(rest, Placeholder(style, key), to)
  {
    var pat := Placeholder(style, key);
    var tail := other + Closing(style);
    assert '{' !in tail && tail != [];
    PlaceholderTail(style, other);
    ReplaceSkips(tail, rest, pat, to);
    if style.Single? {
      assert Placeholder(style, other)[1..] == tail;
    } else {
      Associates("{", tail, rest);
      assert ("{" + (tail + rest))[1] == tail[0] && tail[0] in tail && pat[1] == '{';
      ReplaceSkipsOne('{', tail + rest, pat, to);
      Associates("{", tail, Replace(rest, pat, to));
    }
  }

  /** A placeholder that does not match is passed over as a whole. */
  lemma ReplaceSkipsPlaceholder(style: Style, key: string, other: string, rest: string, to: string)
    requires BraceFree(other) && !(Placeholder(style, key) <= Placeholder(style, other) + rest)
    ensures Replace(Placeholder(style, other) + rest, Placeholder(style, key), to)
      == Placeholder(style, other) + Replace(rest, Placeholder(style, key), to)
  {
    var pat, written := Placeholder(style, key), Placeholder(style, other);
    var first, tail := written[0], written[1..];
    assert written == [first] + tail;
    Associates([first], tail, rest);
    ReplaceSkipsOne(first, tail + rest, pat, to);
    ReplaceSkipsRest(style, key, other, rest, to);
    Associates([first], tail, Replace(rest, pat, to));
  }

  lemma ReplaceInSegment(style: Style, head: Segment, rest: string, b: Binding)
    requires if head.Lit? then BraceFree(head.text) else BraceFree(head.key)
    requires BraceFree(b.key)
    ensures Replace(Write(style, head) + rest, Placeholder(style, b.key), b.value)
      == Write(style, Fill(head, map[b.key := b.value])) + Replace(rest, Placeholder(style, b.key), b.value)
  {
    var pat := Placeholder(style, b.key);
    assert pat[0] == '{';
    if head.Lit? {
      ReplaceSkips(head.text, rest, pat, b.value);
    } else if head.key == b.key {
      ReplaceMatches(rest, pat, b.value);
    } else {
      if pat <= Placeholder(style, head.key) + rest {
        MatchNeedsSameKey(style, b.key, head.key, rest);
      }
      ReplaceSkipsPlaceholder(style, b.key, head.key, rest, b.value);
    }
  }

  /** Replacing a brace-free key in a written template is filling that key's placeholders. */
  lemma {:induction false} ReplaceFillsPlain(style: Style, segments: seq<Segment>, b: Binding)
    requires WellFormed(segments) && BraceFree(b.key)
    ensures Fills(style, segments, b)
  {
    var filled := Substitute(segments, map[b.key := b.value]);
    if segments != [] {
      ReplaceFillsPlain(style, segments[1..], b);
      assert filled[1..] == Substitute(segments[1..], map[b.key := b.value]);
      ReplaceInSegment(style, segments[0], Flatten(style, segments[1..]), b);
    }
  }

  /** Replacing the binding's key in the written template fills exactly that key's placeholders. */
  ghost predicate Fills(style: Style, segments: seq<Segment>, b: Binding) {
    Replace(Flatten(style, segments), Placeholder(style, b.key), b.value)
      == Flatten(style, Substitute(segments, map[b.key := b.value]))
  }

  predicate EndsClosed(style: Style, s: string) {
    |s| >= |Closing(style)| && s[|s| - |Closing(style)|..] == Closing(style)
  }

  lemma PlaceholderEndsClosed(style: Style, key: string)
    ensures EndsClosed(style, Placeholder(style, key))
  {
  }

  /** Text that ends like a placeholder reaches at least to the end of the placeholder it starts with. */
  lemma EndsBehindPlaceholder(style: Style, key: string, tail: string, p: string)
    requires BraceFree(key) && p <= Placeholder(style, key) + tail && EndsClosed(style, p)
    ensures |p| >= |Placeholder(style, key)|
  {
    var whole, n := Placeholder(style, key) + tail, |Opening(style)| + |key|;
    assert forall i :: 0 <= i < n ==> whole[i] != '}' by {
      assert forall i :: |Opening(style)| <= i < n ==> whole[i] == key[i - |Opening(style)|];
    }
    var first := |p| - |Closing(style)|;
    assert whole[first] == p[first] == p[first..][0] == '}';
  }

  lemma EndsClosedRest(style: Style, front: string, rest: string)
    requires EndsClosed(style, front + rest) && rest != [] && rest[0] != '}'
    ensures EndsClosed(style, rest)
  {
    var p, c := front + rest, |Closing(style)|;
    assert p[|p| - c..][c - 1] == '}' == rest[|rest| - 1];
    if style.Double? {
      assert p[|p| - c..] == rest[|rest| - c..];
    } else {
      assert rest[|rest| - 1..] == "}";
    }
  }

  lemma ClosedStart(style: Style, s: string)
    requires Closed(style, s) && s != []
    ensures s[0] != '}'
  {
  }

  lemma RestOfPrefix(front: string, tail: string, p: string)
    requires p <= front + tail && |p| >= |front|
    ensures p == front + p[|front|..] && p[|front|..] <= tail
  {
    assert p[..|front|] == (front + tail)[..|front|] == front;
    assert p[|front|..] == (front + tail)[|front|..|p|] == tail[..|p| - |front|];
  }

  /** A prefix of closed text that ends like a placeholder is closed. */
  lemma {:induction false} ClosedPrefix(style: Style, s: string, p: string)
    requires Closed(style, s) && p <= s && EndsClosed(style, p)
    ensures Closed(style, p)
    decreases |s|
  {
    var head, tail := ClosedStep(style, s);
    var front := Write(style, head);
    FrontReached(style, head, tail, p);
    RestOfPrefix(front, tail, p);
    var rest := p[|front|..];
    if rest != [] {
      ClosedStart(style, tail);
      EndsClosedRest(style, front, rest);
      ClosedPrefix(style, tail, rest);
    }
    ClosedAfterSegment(style, head, rest);
  }

  lemma FrontReached(style: Style, head: Segment, tail: string, p: string)
    requires p <= Write(style, head) + tail && EndsClosed(style, p)
    requires if head.Lit? then |head.text| <= 1 else BraceFree(head.key)
    ensures |p| >= |Write(style, head)|
  {
    if head.Hole? {
      EndsBehindPlaceholder(style, head.key, tail, p);
    }
  }

  lemma ClosedAfterSegment(style: Style, head: Segment, rest: string)
    requires Closed(style, rest)
    requires if head.Lit? then BraceFree(head.text) else BraceFree(head.key)
    ensures Closed(style, Write(style, head) + rest)
  {
    if head.Lit? {
      ClosedAfterText(style, head.text, rest);
    } else {
      TakesWritten(style, head.key, rest);
    }
  }

  lemma NoMatchInClosed(style: Style, s: string, key: string)
    requires Closed(style, s) && !Closed(style, Placeholder(style, key))
    ensures !(Placeholder(style, key) <= s)
  {
    PlaceholderEndsClosed(style, key);
    if Placeholder(style, key) <= s {
      ClosedPrefix(style, s, Placeholder(style, key));
    }
  }

  /** A placeholder that is not closed never matches in closed text. */
  lemma {:induction false} ReplaceIgnores(style: Style, s: string, key: string, to: string)
    requires Closed(style, s) && !Closed(style, Placeholder(style, key))
    ensures Replace(s, Placeholder(style, key), to) == s
    decreases |s|
  {
    if s != [] {
      var head, tail := ClosedStep(style, s);
      ReplaceIgnores(style, tail, key, to);
      if head.Lit? {
        ReplaceSkips(head.text, tail, Placeholder(style, key), to);
      } else {
        NoMatchInClosed(style, s, key);
        ReplaceSkipsPlaceholder(style, key, head.key, tail, to);
      }
    }
  }

  lemma NoHoleHasBraces(segments: seq<Segment>, b: Binding)
    requires WellFormed(segments) && !BraceFree(b.key)
    ensures Substitute(segments, map[b.key := b.value]) == segments
  {
  }

  /** Replacing a harmless key in a written template is filling that key's placeholders. */
  lemma {:induction false} ReplaceFills(style: Style, segments: seq<Segment>, b: Binding)
    requires WellFormed(segments) && Harmless(style, b.key)
    ensures Fills(style, segments, b)
  {
    if BraceFree(b.key) {
      ReplaceFillsPlain(style, segments, b);
    } else {
      SegmentsAreClosed(style, segments);
      ReplaceIgnores(style, Flatten(style, segments), b.key, b.value);
      NoHoleHasBraces(segments, b);
    }
  }

  /** Exactly the harmless keys are replaced as the simultaneous substitution would, in every template and by every
      value. */
  lemma {:induction false} KeyIsHarmlessIff(style: Style, key: string)
    ensures Harmless(style, key)
      <==> forall segments, value :: WellFormed(segments) ==> Fills(style, segments, Binding(key, value))
  {
    if Harmless(style, key) {
      forall segments, value | WellFormed(segments) ensures Fills(style, segments, Binding(key, value)) {
        ReplaceFills(style, segments, Binding(key, value));
      }
    } else {
      var pat := Placeholder(style, key);
      var segments := ClosedHasSegments(style, pat);
      NoHoleHasBraces(segments, Binding(key, ""));
      assert pat + [] == pat;
      ReplaceMatches([], pat, "");
      assert !Fills(style, segments, Binding(key, ""));
    }
  }

  lemma SubstituteKeepsWellFormed(segments: seq<Segment>, vars: map<string, string>)
    requires WellFormed(segments) && forall k :: k in vars ==> BraceFree(vars[k])
    ensures WellFormed(Substitute(segments, vars))
  {
  }

  /** Filling one key and then a set of others is filling them all. */
  lemma SubstituteInTwo(segments: seq<Segment>, b: Binding, more: map<string, string>)
    requires b.key !in more
    ensures Substitute(Substitute(segments, map[b.key := b.value]), more)
      == Substitute(segments, more[b.key := b.value])
  {
  }

  lemma OrdersRest(order: seq<Binding>, vars: map<string, string>)
    requires order != [] && Orders(order, vars)
    ensures Orders(order[1..], vars - {order[0].key})
    ensures (vars - {order[0].key})[order[0].key := order[0].value] == vars
  {
    var more := vars - {order[0].key};
    forall k | k in more ensures exists i :: 0 <= i < |order[1..]| && order[1..][i].key == k {
      var i :| 0 <= i < |order| && order[i].key == k;
      assert order[1..][i - 1].key == k;
    }
  }

  /** When the template is made of closed, unnested placeholders, the keys are harmless and no value contains a brace,
      the sequential replacement in any order is the one simultaneous substitution. */
  lemma {:induction false} OrderDoesNotMatter(style: Style, segments: seq<Segment>, vars: map<string, string>,
                                              order: seq<Binding>)
    requires WellFormed(segments) && Substitutable(style, vars) && Orders(order, vars)
    ensures ReplaceInOrder(style, Flatten(style, segments), order) == Flatten(style, Substitute(segments, vars))
    decreases |order|
  {
    if order == [] {
      assert Substitute(segments, vars) == segments;
    } else {
      var b := order[0];
      var more := vars - {b.key};
      OrdersRest(order, vars);
      ReplaceFills(style, segments, b);
      var filled := Substitute(segments, map[b.key := b.value]);
      SubstituteKeepsWellFormed(segments, map[b.key := b.value]);
      OrderDoesNotMatter(style, filled, more, order[1..]);
      SubstituteInTwo(segments, b, more);
    }
  }

  lemma {:induction false} FlattenAppend(style: Style, a: seq<Segment>, b: seq<Segment>)
    ensures Flatten(style, a + b) == Flatten(style, a) + Flatten(style, b)
  {
    if a == [] {
      assert a + b == b;
    } else {
      assert (a + b)[1..] == a[1..] + b && (a + b)[0] == a[0];
      FlattenAppend(style, a[1..], b);
      Associates(Write(style, a[0]), Flatten(style, a[1..]), Flatten(style, b));
    }
  }

  /** A placeholder without a value comes through unchanged at its place, whatever the order and whatever else is
      filled. */
  lemma UnknownPlaceholdersStay(style: Style, before: seq<Segment>, key: string, after: seq<Segment>,
                                vars: map<string, string>, order: seq<Binding>)
    requires WellFormed(before + [Hole(key)] + after) && key !in vars
    requires Substitutable(style, vars) && Orders(order, vars)
    ensures ReplaceInOrder(style, Flatten(style, before + [Hole(key)] + after), order)
      == Flatten(style, Substitute(before, vars)) + Placeholder(style, key) + Flatten(style, Substitute(after, vars))
  {
    var segments := before + [Hole(key)] + after;
    OrderDoesNotMatter(style, segments, vars, order);
    var x, y := Substitute(before, vars), Substitute(after, vars);
    SubstituteAround(before, key, after, vars);
    FlattenAround(style, x, key, y);
  }

  lemma SubstituteAround(before: seq<Segment>, key: string, after: seq<Segment>, vars: map<string, string>)
    requires key !in vars
    ensures Substitute(before + [Hole(key)] + after, vars)
      == Substitute(before, vars) + [Hole(key)] + Substitute(after, vars)
  {
  }

  lemma FlattenAround(style: Style, x: seq<Segment>, key: string, y: seq<Segment>)
    ensures Flatten(style, x + [Hole(key)] + y) == Flatten(style, x) + Placeholder(style, key) + Flatten(style, y)
  {
    FlattenAppend(style, x + [Hole(key)], y);
    FlattenAppend(style, x, [Hole(key)]);
    FlattenCons(style, Hole(key), []);
    assert [Hole(key)] + [] == [Hole(key)] && Placeholder(style, key) + [] == Placeholder(style, key);
  }

  // The same, for a template given as text.

  function KeyLength(s: string): (n: nat)
    ensures n <= |s| && BraceFree(s[..n])
    ensures n < |s| ==> s[n] == '{' || s[n] == '}'
  {
    if s == [] || s[0] == '{' || s[0] == '}' then 0
    else
      var n := KeyLength(s[1..]);
      assert s[..n + 1] == [s[0]] + s[1..][..n];
      n + 1
  }

  function StripPrefix(prefix: string, s: string): (r: Option<string>)
    ensures r.Some? <==> prefix <= s
    ensures r.Some? ==> s == prefix + r.value
  {
    if prefix <= s then Some(s[|prefix|..]) else None
  }

  lemma WrittenPlaceholder(style: Style, s: string, inner: string, n: nat, tail: string)
    requires n <= |inner| && s == Opening(style) + inner && inner[n..] == Closing(style) + tail
    ensures s == Placeholder(style, inner[..n]) + tail && s != [] && s[0] == '{' && |tail| < |s|
  {
    var open, key, close := Opening(style), inner[..n], Closing(style);
    assert inner == key + inner[n..];
    Associates(key, close, tail);
    Associates(open, key + close, tail);
    Associates(open, key, close);
    assert open[0] == '{';
  }

  /** The placeholder that the text starts with, if it is closed before another brace, and what follows it. */
  function TakePlaceholder(style: Style, s: string): (r: Option<(string, string)>)
    ensures r.Some? ==> BraceFree(r.value.0) && s == Placeholder(style, r.value.0) + r.value.1
    ensures r.Some? ==> s != [] && s[0] == '{' && |r.value.1| < |s|
  {
    var inner := StripPrefix(Opening(style), s);
    if inner.None? then None
    else
      var n := KeyLength(inner.value);
      var tail := StripPrefix(Closing(style), inner.value[n..]);
      if tail.None? then None
      else
        WrittenPlaceholder(style, s, inner.value, n, tail.value);
        Some((inner.value[..n], tail.value))
  }

  /** Every placeholder is closed before another brace, and no brace stands outside a placeholder. */
  predicate Closed(style: Style, s: string)
    decreases |s|
  {
    if s == [] then true
    else
      match TakePlaceholder(style, s)
      case Some((_, tail)) => Closed(style, tail)
      case None => s[0] != '{' && s[0] != '}' && Closed(style, s[1..])
  }

  lemma FlattenCons(style: Style, head: Segment, more: seq<Segment>)
    ensures Flatten(style, [head] + more) == Write(style, head) + Flatten(style, more)
  {
    assert ([head] + more)[1..] == more;
  }

  lemma WellFormedCons(head: Segment, more: seq<Segment>)
    requires WellFormed(more) && if head.Lit? then BraceFree(head.text) else BraceFree(head.key)
    ensures WellFormed([head] + more)
  {
  }

  lemma ClosedStep(style: Style, s: string) returns (head: Segment, tail: string)
    requires Closed(style, s) && s != []
    ensures |tail| < |s| && Closed(style, tail) && s == Write(style, head) + tail
    ensures if head.Lit? then |head.text| <= 1 && BraceFree(head.text) else BraceFree(head.key)
  {
    var taken := TakePlaceholder(style, s);
    if taken.Some? {
      head, tail := Hole(taken.value.0), taken.value.1;
    } else {
      head, tail := Lit([s[0]]), s[1..];
    }
  }

  /** Closed text is a template. */
  lemma {:induction false} ClosedHasSegments(style: Style, s: string) returns (segments: seq<Segment>)
    requires Closed(style, s)
    ensures WellFormed(segments) && Flatten(style, segments) == s
    decreases |s|
  {
    if s == [] {
      segments := [];
    } else {
      var head, tail := ClosedStep(style, s);
      var more := ClosedHasSegments(style, tail);
      segments := [head] + more;
      FlattenCons(style, head, more);
      WellFormedCons(head, more);
    }
  }

  lemma {:induction false} KeyLengthOf(key: string, rest: string)
    requires BraceFree(key) && rest != [] && rest[0] == '}'
    ensures KeyLength(key + rest) == |key|
    decreases |key|
  {
    if key == [] {
      assert key + rest == rest;
    } else {
      assert (key + rest)[1..] == key[1..] + rest;
      KeyLengthOf(key[1..], rest);
    }
  }

  lemma {:induction false} ClosedAfterText(style: Style, text: string, rest: string)
    requires BraceFree(text) && Closed(style, rest)
    ensures Closed(style, text + rest)
    decreases |text|
  {
    if text == [] {
      assert text + rest == rest;
    } else {
      assert (text + rest)[1..] == text[1..] + rest;
      ClosedAfterText(style, text[1..], rest);
      assert text[0] in text;
    }
  }

  lemma StripsPrefix(prefix: string, rest: string)
    ensures StripPrefix(prefix, prefix + rest) == Some(rest)
  {
    assert (prefix + rest)[..|prefix|] == prefix && (prefix + rest)[|prefix|..] == rest;
    assert prefix <= prefix + rest;
  }

  lemma TakesWritten(style: Style, key: string, tail: string)
    requires BraceFree(key)
    ensures TakePlaceholder(style, Placeholder(style, key) + tail) == Some((key, tail))
  {
    var after := Closing(style) + tail;
    assert Placeholder(style, key) + tail == Opening(style) + (key + after);
    StripsPrefix(Opening(style), key + after);
    KeyLengthOf(key, after);
    assert (key + after)[|key|..] == after && (key + after)[..|key|] == key;
    StripsPrefix(Closing(style), tail);
  }

  /** And every written template is closed text. */
  lemma {:induction false} SegmentsAreClosed(style: Style, segments: seq<Segment>)
    requires WellFormed(segments)
    ensures Closed(style, Flatten(style, segments))
    decreases |segments|
  {
    if segments != [] {
      var tail := Flatten(style, segments[1..]);
      SegmentsAreClosed(style, segments[1..]);
      if segments[0].Lit? {
        ClosedAfterText(style, segments[0].text, tail);
      } else {
        TakesWritten(style, segments[0].key, tail);
      }
    }
  }

  /** On closed text any two orders render alike. */
  lemma AnyTwoOrdersAgree(style: Style, template: string, vars: map<string, string>, order: seq<Binding>,
                          other: seq<Binding>)
    requires Closed(style, template) && Substitutable(style, vars) && Orders(order, vars) && Orders(other, vars)
    ensures ReplaceInOrder(style, template, order) == ReplaceInOrder(style, template, other)
  {
    var segments := ClosedHasSegments(style, template);
    OrderDoesNotMatter(style, segments, vars, order);
    OrderDoesNotMatter(style, segments, vars, other);
  }

  // Why braces in values and keys are excluded.

  /** For any two keys, a value that spells the other key's placeholder makes the order decide the result. */
  lemma BraceInValueMakesOrderMatter(style: Style, a: string, b: string, value: string)
    requires BraceFree(a) && BraceFree(b) && a != b && BraceFree(value)
    ensures var nested, plain := Binding(a, Placeholder(style, b)), Binding(b, value);
      && ReplaceInOrder(style, Placeholder(style, a), [nested, plain]) == value
      && ReplaceInOrder(style, Placeholder(style, a), [plain, nested]) == Placeholder(style, b)
      && value != Placeholder(style, b)
  {
    var nested, plain := Binding(a, Placeholder(style, b)), Binding(b, value);
    ReplaceTwo(style, Placeholder(style, a), nested, plain);
    ReplaceTwo(style, Placeholder(style, a), plain, nested);
    ReplaceAlone(style, a, nested);
    ReplaceAlone(style, b, plain);
    ReplaceAlone(style, a, plain);
    assert Placeholder(style, b)[0] == '{';
  }

  lemma {:induction false} ReplaceShort(s: string, pat: string, to: string)
    requires |s| < |pat|
    ensures Replace(s, pat, to) == s
  {
    if s != [] { ReplaceShort(s[1..], pat, to); }
  }

  /** A value without any placeholder in it can do the same when it stands on both sides of some text: its end opens a
      placeholder that its next occurrence closes. */
  lemma BracesInValueMeet(style: Style, a: string, b: string)
    requires BraceFree(a) && BraceFree(b) && a != b
    ensures var torn := Closing(style) + Opening(style);
      var template := [Hole(a), Lit(b), Hole(a)];
      && ReplaceInOrder(style, Flatten(style, template), [Binding(a, torn), Binding(b, "")]) == torn
      && Flatten(style, Substitute(template, map[a := torn, b := ""])) == torn + b + torn
  {
    var open, close := Opening(style), Closing(style);
    var torn, template := close + open, [Hole(a), Lit(b), Hole(a)];
    var filled := [Lit(torn), Lit(b), Lit(torn)];
    ReplaceTwo(style, Flatten(style, template), Binding(a, torn), Binding(b, ""));
    ReplaceFills(style, template, Binding(a, torn));
    assert Substitute(template, map[a := torn]) == filled == Substitute(template, map[a := torn, b := ""]);
    FlattenThree(style, torn, b, torn);
    TornPlaceholder(style, b);
  }

  lemma FlattenThree(style: Style, x: string, y: string, z: string)
    ensures Flatten(style, [Lit(x), Lit(y), Lit(z)]) == x + y + z
  {
    var all := [Lit(x), Lit(y), Lit(z)];
    assert all[1..] == [Lit(y), Lit(z)] && all[1..][1..] == [Lit(z)] && [Lit(z)][1..] == [];
    assert Flatten(style, [Lit(z)]) == z + [] == z;
    assert Flatten(style, [Lit(y), Lit(z)]) == y + z;
    Associates(x, y, z);
  }

  lemma TornPlaceholder(style: Style, b: string)
    requires BraceFree(b)
    ensures var open, close := Opening(style), Closing(style);
      Replace(close + open + b + (close + open), Placeholder(style, b), "") == close + open
  {
    var open, close, pat := Opening(style), Closing(style), Placeholder(style, b);
    assert close + open + b + (close + open) == close + (pat + open);
    ReplaceSkips(close, pat + open, pat, "");
    ReplaceMatches(open, pat, "");
    ReplaceShort(open, pat, "");
    assert "" + open == open;
  }

  lemma ReplaceTwo(style: Style, text: string, x: Binding, y: Binding)
    ensures ReplaceInOrder(style, text, [x, y])
      == Replace(Replace(text, Placeholder(style, x.key), x.value), Placeholder(style, y.key), y.value)
  {
    var first := Replace(text, Placeholder(style, x.key), x.value);
    assert [x, y][1..] == [y] && [y][1..] == [];
    assert ReplaceInOrder(style, text, [x, y]) == ReplaceInOrder(style, first, [y]);
  }

  lemma ReplaceAlone(style: Style, key: string, b: Binding)
    requires BraceFree(key) && BraceFree(b.key)
    ensures Replace(Placeholder(style, key), Placeholder(style, b.key), b.value)
      == if key == b.key then b.value else Placeholder(style, key)
  {
    ReplaceInSegment(style, Hole(key), [], b);
    assert Placeholder(style, key) + [] == Placeholder(style, key) && b.value + [] == b.value;
  }

  lemma TwoHoles(style: Style, a: string, b: string)
    ensures Flatten(style, [Hole(a), Hole(b)]) == Placeholder(style, a) + Placeholder(style, b)
  {
    assert [Hole(a), Hole(b)][1..] == [Hole(b)] && [Hole(b)][1..] == [];
    assert Flatten(style, [Hole(b)]) == Placeholder(style, b) + [] == Placeholder(style, b);
  }

  lemma JoinedHoles(style: Style, a: string, b: string)
    ensures Placeholder(style, a) + Placeholder(style, b) == Placeholder(style, a + Closing(style) + Opening(style) + b)
  {
    var open, close := Opening(style), Closing(style);
    assert open + a + close + (open + b + close) == open + (a + close + open + b) + close;
  }

  /** A key with braces in it can match across two placeholders of the template. */
  lemma BraceInKeyMatchesAcross(style: Style, a: string, b: string, value: string)
    ensures var across := a + Closing(style) + Opening(style) + b;
      ReplaceInOrder(style, Flatten(style, [Hole(a), Hole(b)]), [Binding(across, value)]) == value
  {
    var across := a + Closing(style) + Opening(style) + b;
    var pat := Placeholder(style, across);
    TwoHoles(style, a, b);
    JoinedHoles(style, a, b);
    ReplaceMatches([], pat, value);
    assert pat + [] == pat && value + [] == value;
    assert [Binding(across, value)][1..] == [];
  }
}
