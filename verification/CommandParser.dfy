/** The terminal client's command language: a tokeniser that honours double quotes, and the commands it recognises. */
module CommandParser {
  import opened Common

  datatype Command =
    | Quit
    | Connect
    | Spawn(name: string, goal: string)
    | Kill(pid: nat)
    | Help
    | ToggleLogs
    | ToggleNotifications
    | ToggleNewAgentForm
    | Catalog
    | InstallAgent(source: string)
    | InstallService(source: string)

  datatype ParseError = MissingSlash | EmptyCommand | UnknownCommand(text: string) | InvalidPid | SpawnNeedsNameAndGoal
                      | InstallNeedsSource | UnknownTarget(target: string)

  // Tokens.

  /** What remains to be produced, given the text still to read, the token being built and whether a quote is open. */
  function Tokens(s: string, current: string, quoted: bool): seq<string>
    decreases |s|
  {
    if s == [] then Flush(current)
    else if s[0] == '"' then Tokens(s[1..], current, !quoted)
    else if s[0] == ' ' && !quoted then Flush(current) + Tokens(s[1..], [], quoted)
    else Tokens(s[1..], current + [s[0]], quoted)
  }

  function Flush(current: string): seq<string> {
    if current == [] then [] else [current]
  }

  method ParseQuoted(input: string) returns (parts: seq<string>)
    ensures parts == Tokens(input, [], false)
    ensures forall i :: 0 <= i < |parts| ==> parts[i] != [] && '"' !in parts[i]
  {
    parts := [];
    var current: string := [];
    var inQuotes := false;
    for i := 0 to |input|
      invariant parts + Tokens(input[i..], current, inQuotes) == Tokens(input, [], false)
    {
      var ch := input[i];
      assert input[i..][1..] == input[i + 1..];
      if ch == '"' {
        inQuotes := !inQuotes;
      } else if ch == ' ' && !inQuotes {
        if current != [] {
          parts := parts + [current];
          current := [];
        }
      } else {
        current := current + [ch];
      }
    }
    if current != [] {
      parts := parts + [current];
    }
    TokensAreClean(input, [], false);
  }

  /** No input yields an empty token or one that contains a quote. */
  lemma {:induction false} TokensAreClean(s: string, current: string, quoted: bool)
    requires '"' !in current
    ensures forall i :: 0 <= i < |Tokens(s, current, quoted)| ==>
      Tokens(s, current, quoted)[i] != [] && '"' !in Tokens(s, current, quoted)[i]
    decreases |s|
  {
    if s != [] {
      if s[0] == '"' {
        TokensAreClean(s[1..], current, !quoted);
      } else if s[0] == ' ' && !quoted {
        TokensAreClean(s[1..], [], quoted);
      } else {
        TokensAreClean(s[1..], current + [s[0]], quoted);
      }
    }
  }

  /** Inside quotes everything but a quote is taken. */
  lemma {:induction false} QuotedTextIsTaken(text: string, rest: string, current: string)
    requires '"' !in text
    ensures Tokens(text + rest, current, true) == Tokens(rest, current + text, true)
    decreases |text|
  {
    if text == [] {
      assert text + rest == rest && current + text == current;
    } else {
      assert (text + rest)[1..] == text[1..] + rest;
      QuotedTextIsTaken(text[1..], rest, current + [text[0]]);
      assert current + [text[0]] + text[1..] == current + text;
    }
  }

  function Quote(t: string): string {
    "\"" + t + "\""
  }

  function JoinQuoted(ts: seq<string>): string {
    if ts == [] then []
    else if |ts| == 1 then Quote(ts[0])
    else Quote(ts[0]) + " " + JoinQuoted(ts[1..])
  }

  lemma QuotedTokenThen(t: string, rest: string)
    requires '"' !in t
    ensures Tokens(Quote(t) + rest, [], false) == Tokens(rest, t, false)
  {
    var s := Quote(t) + rest;
    assert s[1..] == t + ("\"" + rest);
    QuotedTextIsTaken(t, "\"" + rest, []);
    assert ("\"" + rest)[1..] == rest && [] + t == t;
  }

  lemma {:induction false} QuotedListIsTaken(ts: seq<string>)
    requires forall i :: 0 <= i < |ts| ==> ts[i] != [] && '"' !in ts[i]
    ensures Tokens(JoinQuoted(ts), [], false) == ts
    decreases |ts|
  {
    if |ts| == 1 {
      QuotedTokenThen(ts[0], []);
      assert Quote(ts[0]) + [] == Quote(ts[0]);
    } else if |ts| > 1 {
      var rest := JoinQuoted(ts[1..]);
      QuotedListIsTaken(ts[1..]);
      QuotedTokenThen(ts[0], " " + rest);
      assert Quote(ts[0]) + (" " + rest) == JoinQuoted(ts);
      assert (" " + rest)[1..] == rest;
      assert ts == [ts[0]] + ts[1..];
    }
  }

  /** Quoting and joining is undone exactly for lists of non-empty strings without quotes. */
  lemma TokeniserInvertsQuotingIff(ts: seq<string>)
    ensures Tokens(JoinQuoted(ts), [], false) == ts <==> forall i :: 0 <= i < |ts| ==> ts[i] != [] && '"' !in ts[i]
  {
    TokensAreClean(JoinQuoted(ts), [], false);
    if forall i :: 0 <= i < |ts| ==> ts[i] != [] && '"' !in ts[i] {
      QuotedListIsTaken(ts);
    }
  }

  // Text outside quotes.

  /** A space outside quotes ends the token. */
  lemma {:induction false} SpaceEndsToken(text: string, rest: string, current: string)
    requires '"' !in text
    ensures Tokens(text + " " + rest, current, false) == Tokens(text, current, false) + Tokens(rest, [], false)
    decreases |text|
  {
    var s := text + " " + rest;
    if text == [] {
      assert s[1..] == rest;
    } else {
      assert s[1..] == text[1..] + " " + rest;
      if text[0] == ' ' {
        SpaceEndsToken(text[1..], rest, []);
        assert Flush(current) + (Tokens(text[1..], [], false) + Tokens(rest, [], false))
          == Flush(current) + Tokens(text[1..], [], false) + Tokens(rest, [], false);
      } else {
        SpaceEndsToken(text[1..], rest, current + [text[0]]);
      }
    }
  }

  lemma {:induction false} PlainTokensHaveNoSpace(text: string, current: string)
    requires '"' !in text && ' ' !in current
    ensures forall i :: 0 <= i < |Tokens(text, current, false)| ==> ' ' !in Tokens(text, current, false)[i]
    decreases |text|
  {
    if text != [] {
      if text[0] == ' ' {
        PlainTokensHaveNoSpace(text[1..], []);
      } else {
        PlainTokensHaveNoSpace(text[1..], current + [text[0]]);
      }
    }
  }

  lemma {:induction false} PlainWordIsToken(word: string, current: string)
    requires '"' !in word && ' ' !in word
    ensures Tokens(word, current, false) == Flush(current + word)
    decreases |word|
  {
    if word == [] {
      assert current + word == current;
    } else {
      PlainWordIsToken(word[1..], current + [word[0]]);
      assert current + [word[0]] + word[1..] == current + word;
    }
  }

  /** A word written without quotes comes back as itself exactly when it is non-empty and has no space. */
  lemma PlainWordIff(word: string)
    requires '"' !in word
    ensures Tokens(word, [], false) == [word] <==> word != [] && ' ' !in word
  {
    PlainTokensHaveNoSpace(word, []);
    if Tokens(word, [], false) == [word] {
      TokensAreClean(word, [], false);
      assert [word][0] == word;
    }
    if ' ' !in word {
      PlainWordIsToken(word, []);
      assert [] + word == word;
    }
  }

  // Numbers.

  predicate IsDigit(c: char) {
    '0' <= c <= '9'
  }

  predicate AllDigits(s: string) {
    forall i :: 0 <= i < |s| ==> IsDigit(s[i])
  }

  function DigitChar(d: nat): char
    requires d < 10
  {
    ('0' as int + d) as char
  }

  /** The decimal form of a number. */
  function Decimal(n: nat): string {
    if n < 10 then [DigitChar(n)] else Decimal(n / 10) + [DigitChar(n % 10)]
  }

  function DigitsValue(s: string): nat
    requires AllDigits(s)
  {
    if s == [] then 0 else 10 * DigitsValue(s[..|s| - 1]) + (s[|s| - 1] as int - '0' as int)
  }

  /** `str::parse::<u64>`: digits, after an optional plus sign, within range. */
  function ParseU64(s: string): Option<nat> {
    var digits := if |s| > 1 && s[0] == '+' then s[1..] else s;
    if digits == [] || !AllDigits(digits) then None
    else if DigitsValue(digits) < U64_LIMIT then Some(DigitsValue(digits)) else None
  }

  lemma {:induction false} DecimalIsDigits(n: nat)
    ensures Decimal(n) != [] && AllDigits(Decimal(n)) && DigitsValue(Decimal(n)) == n
  {
    if n >= 10 {
      DecimalIsDigits(n / 10);
      var s := Decimal(n);
      assert s[..|s| - 1] == Decimal(n / 10);
    } else {
      assert Decimal(n)[..0] == [];
    }
  }

  lemma DecimalRoundTrip(n: nat)
    ensures ParseU64(Decimal(n)) == if n < U64_LIMIT then Some(n) else None
  {
    DecimalIsDigits(n);
    assert IsDigit(Decimal(n)[0]);
  }

  /** Digits give their value within 64 bits, also behind one plus sign; a sign alone or any other character is
      refused. */
  lemma NumbersParse(d: string)
    requires d != [] && d[0] != '+'
    ensures ParseU64(d) == if AllDigits(d) && DigitsValue(d) < U64_LIMIT then Some(DigitsValue(d)) else None
    ensures ParseU64("+" + d) == ParseU64(d) && ParseU64("+") == None && ParseU64("++" + d) == None && ParseU64("")
      == None
  {
    assert ("+" + d)[1..] == d && ("++" + d)[1..] == "+" + d;
    assert !IsDigit(("+" + d)[0]) && !IsDigit("+"[0]);
  }

  // Commands.

  predicate IsWhitespace(c: char) {
    || '\t' <= c <= '\r' || c == ' ' || c == '\U{85}' || c == '\U{A0}' || c == '\U{1680}'
    || '\U{2000}' <= c <= '\U{200A}' || c == '\U{2028}' || c == '\U{2029}' || c == '\U{202F}' || c == '\U{205F}'
    || c == '\U{3000}'
  }

  function Trim(s: string): string {
    if s != [] && IsWhitespace(s[0]) then Trim(s[1..])
    else if s != [] && IsWhitespace(s[|s| - 1]) then Trim(s[..|s| - 1])
    else s
  }

  function ParseOne(word: string, text: string): Result<Command, ParseError> {
    if word == "quit" || word == "q" then Ok(Quit)
    else if word == "connect" || word == "c" then Ok(Connect)
    else if word == "help" || word == "h" || word == "?" then Ok(Help)
    else if word == "logs" || word == "log" then Ok(ToggleLogs)
    else if word == "notifs" || word == "notifications" || word == "n" then Ok(ToggleNotifications)
    else if word == "new-agent-form" || word == "new" || word == "f" then Ok(ToggleNewAgentForm)
    else if word == "catalog" then Ok(Catalog)
    else Err(UnknownCommand(text))
  }

  function ParseTwo(word: string, arg: string, text: string): Result<Command, ParseError> {
    if word != "kill" then Err(UnknownCommand(text))
    else
      match ParseU64(arg)
      case Some(pid) => Ok(Kill(pid))
      case None => Err(InvalidPid)
  }

  function ParseThree(word: string, first: string, second: string, text: string): Result<Command, ParseError> {
    if word == "spawn" then
      if first == "" || second == "" then Err(SpawnNeedsNameAndGoal) else Ok(Spawn(first, second))
    else if word == "install" then
      if second == "" then Err(InstallNeedsSource)
      else if first == "agent" then Ok(InstallAgent(second))
      else if first == "service" then Ok(InstallService(second))
      else Err(UnknownTarget(first))
    else Err(UnknownCommand(text))
  }

  function Parse(input: string): Result<Command, ParseError> {
    if input == [] || input[0] != '/' then Err(MissingSlash)
    else
      var text := Trim(input[1..]);
      if text == [] then Err(EmptyCommand)
      else
        var parts := Tokens(text, [], false);
        if |parts| == 1 then ParseOne(parts[0], text)
        else if |parts| == 2 then ParseTwo(parts[0], parts[1], text)
        else if |parts| == 3 then ParseThree(parts[0], parts[1], parts[2], text)
        else Err(UnknownCommand(text))
  }

  /** Trimming takes off white space at both ends and nothing else. */
  lemma {:induction false} TrimIsExact(s: string) returns (a: nat, b: nat)
    ensures a <= b <= |s| && Trim(s) == s[a..b]
    ensures (forall i :: 0 <= i < a ==> IsWhitespace(s[i])) && (forall i :: b <= i < |s| ==> IsWhitespace(s[i]))
    ensures a < b ==> !IsWhitespace(s[a]) && !IsWhitespace(s[b - 1])
    decreases |s|
  {
    if s != [] && IsWhitespace(s[0]) {
      a, b := TrimIsExact(s[1..]);
      var rest := s[1..];
      assert rest[a..b] == s[a + 1..b + 1];
      forall i | 0 <= i < a + 1 ensures IsWhitespace(s[i]) {
        if i > 0 { assert s[i] == rest[i - 1]; }
      }
      forall i | b + 1 <= i < |s| ensures IsWhitespace(s[i]) { assert s[i] == rest[i - 1]; }
      a, b := a + 1, b + 1;
    } else if s != [] && IsWhitespace(s[|s| - 1]) {
      a, b := TrimIsExact(s[..|s| - 1]);
      assert s[..|s| - 1][a..b] == s[a..b];
    } else {
      a, b := 0, |s|;
      assert s[0..|s|] == s;
    }
  }

  /** Every command and the words that give it; all other lines with a slash are unknown commands. A token is never
      empty, so the complaints about an empty name, goal or source are unreachable. */
  lemma CommandsIff(input: string)
    requires input != [] && input[0] == '/'
    ensures var text := Trim(input[1..]);
      var ts, r := Tokens(text, [], false), Parse(input);
      && (r == Err(EmptyCommand) <==> text == [])
      && (r == Ok(Quit) <==> ts == ["quit"] || ts == ["q"])
      && (r == Ok(Connect) <==> ts == ["connect"] || ts == ["c"])
      && (r == Ok(Help) <==> ts == ["help"] || ts == ["h"] || ts == ["?"])
      && (r == Ok(ToggleLogs) <==> ts == ["logs"] || ts == ["log"])
      && (r == Ok(ToggleNotifications) <==> ts == ["notifs"] || ts == ["notifications"] || ts == ["n"])
      && (r == Ok(ToggleNewAgentForm) <==> ts == ["new-agent-form"] || ts == ["new"] || ts == ["f"])
      && (r == Ok(Catalog) <==> ts == ["catalog"])
      && (forall pid: nat :: r == Ok(Kill(pid)) <==> |ts| == 2 && ts[0] == "kill" && ParseU64(ts[1]) == Some(pid))
      && (r == Err(InvalidPid) <==> |ts| == 2 && ts[0] == "kill" && ParseU64(ts[1]).None?)
      && (forall name, goal :: r == Ok(Spawn(name, goal)) <==> ts == ["spawn", name, goal])
      && (forall source :: r == Ok(InstallAgent(source)) <==> ts == ["install", "agent", source])
      && (forall source :: r == Ok(InstallService(source)) <==> ts == ["install", "service", source])
      && (forall target :: r == Err(UnknownTarget(target)) <==>
            |ts| == 3 && ts[0] == "install" && ts[1] == target && target != "agent" && target != "service")
      && r != Err(SpawnNeedsNameAndGoal) && r != Err(InstallNeedsSource) && r != Err(MissingSlash)
      && (r.Err? && r.error.UnknownCommand? ==> r.error.text == text)
  {
    var text := Trim(input[1..]);
    TokensAreClean(text, [], false);
    var ts := Tokens(text, [], false);
    if |ts| == 3 { assert ts == [ts[0], ts[1], ts[2]]; }
  }

  lemma NeedsSlash(input: string)
    ensures Parse(input) == Err(MissingSlash) <==> input == [] || input[0] != '/'
  {
    if input != [] && input[0] == '/' { CommandsIff(input); }
  }

  /** The forms in which the client logs the commands it sends. */
  function PrintSpawn(name: string, goal: string): string {
    "spawn " + name + " \"" + goal + "\""
  }

  function PrintKill(pid: nat): string {
    "kill " + Decimal(pid)
  }

  lemma TrimKeeps(s: string)
    requires s != [] && !IsWhitespace(s[0]) && !IsWhitespace(s[|s| - 1])
    ensures Trim(s) == s
  {
  }

  /** A plain word and a space in front of anything. */
  lemma WordThen(word: string, rest: string)
    requires word != [] && '"' !in word && ' ' !in word
    ensures Tokens(word + " " + rest, [], false) == [word] + Tokens(rest, [], false)
  {
    SpaceEndsToken(word, rest, []);
    PlainWordIsToken(word, []);
    assert [] + word == word;
  }

  /** How the printed form of `spawn` tokenises, for a name without quotes. */
  lemma SpawnTokens(name: string, goal: string)
    requires '"' !in name && '"' !in goal
    ensures Tokens(PrintSpawn(name, goal), [], false) == ["spawn"] + Tokens(name, [], false) + Flush(goal)
  {
    var rest := name + " " + Quote(goal);
    assert PrintSpawn(name, goal) == "spawn" + " " + rest;
    WordThen("spawn", rest);
    SpaceEndsToken(name, Quote(goal), []);
    QuotedTokenThen(goal, []);
    assert Quote(goal) + [] == Quote(goal);
    Associates(["spawn"], Tokens(name, [], false), Flush(goal));
  }

  /** A printed spawn command parses back exactly when the name is a non-empty word without spaces or quotes and the
      goal is non-empty without quotes. */
  lemma SpawnRoundTripIff(name: string, goal: string)
    ensures Parse("/" + PrintSpawn(name, goal)) == Ok(Spawn(name, goal)) <==>
      name != [] && ' ' !in name && '"' !in name && goal != [] && '"' !in goal
  {
    var s := PrintSpawn(name, goal);
    assert ("/" + s)[1..] == s;
    assert s[0] == 's' && s[|s| - 1] == '"';
    TrimKeeps(s);
    var parts := Tokens(s, [], false);
    TokensAreClean(s, [], false);
    if '"' !in name && '"' !in goal {
      SpawnTokens(name, goal);
      PlainWordIff(name);
      if goal != [] && Tokens(name, [], false) == [name] {
        assert parts == ["spawn", name, goal];
      }
      if Parse("/" + s) == Ok(Spawn(name, goal)) {
        assert parts == ["spawn", name, goal];
        assert goal == parts[2] && goal != [];
        assert Tokens(name, [], false) == parts[1..2] == [name];
      }
    }
    if Parse("/" + s) == Ok(Spawn(name, goal)) {
      assert name == parts[1] && goal == parts[2];
    }
  }

  lemma DigitsArePlain(d: string)
    requires AllDigits(d)
    ensures '"' !in d && ' ' !in d && forall c :: c in d ==> !IsWhitespace(c)
  {
    forall c | c in d ensures IsDigit(c) { }
  }

  lemma KillTokens(d: string)
    requires d != [] && AllDigits(d)
    ensures Tokens("kill " + d, [], false) == ["kill", d]
  {
    DigitsArePlain(d);
    assert "kill " + d == "kill" + " " + d;
    WordThen("kill", d);
    PlainWordIsToken(d, []);
    assert [] + d == d;
  }

  lemma ParsesTwo(text: string, word: string, arg: string)
    requires text != [] && Trim(text) == text && Tokens(text, [], false) == [word, arg]
    ensures Parse("/" + text) == ParseTwo(word, arg, text)
  {
    assert ("/" + text)[1..] == text;
  }

  /** Every 64-bit pid survives printing and parsing; larger numbers are rejected. */
  lemma KillRoundTrip(pid: nat)
    ensures Parse("/" + PrintKill(pid)) == if pid < U64_LIMIT then Ok(Kill(pid)) else Err(InvalidPid)
  {
    var d := Decimal(pid);
    DecimalIsDigits(pid);
    KillTokens(d);
    DigitsArePlain(d);
    var s := "kill " + d;
    assert s[0] == 'k' && s[|s| - 1] == d[|d| - 1];
    TrimKeeps(s);
    ParsesTwo(s, "kill", d);
    DecimalRoundTrip(pid);
  }
}
