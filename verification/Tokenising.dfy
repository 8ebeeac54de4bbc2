/** The command tokeniser: double quotes group, a space outside quotes separates. */
module Tokenising {
  import opened Common

  /** The token that is finished here, if any. */
  function Flushed(cur: string): seq<string> {
    if cur == "" then [] else [cur]
  }

  /** The tokens of the rest of a command, inside the token cur and inside or outside quotes. */
  function Split(rest: string, cur: string, inQuote: bool): (tokens: seq<string>)
    ensures forall t :: t in tokens ==> t != ""
    decreases |rest|
  {
    if rest == "" then Flushed(cur)
    else if rest[0] == '"' then Split(rest[1..], cur, !inQuote)
    else if rest[0] == ' ' && !inQuote then Flushed(cur) + Split(rest[1..], "", inQuote)
    else Split(rest[1..], cur + [rest[0]], inQuote)
  }

  method Tokenise(cmd: string) returns (tokens: seq<string>)
    ensures tokens == Split(cmd, "", false)
    ensures (forall i :: 0 <= i < |cmd| && cmd[i] == ' ' ==> multiset(cmd[..i])['"'] % 2 == 1) ==>
              tokens == if Kept(cmd, false) == "" then [] else [Kept(cmd, false)]
  {
    var cur, inQuote := "", false;
    tokens := [];
    for i := 0 to |cmd|
      invariant tokens + Split(cmd[i..], cur, inQuote) == Split(cmd, "", false)
    {
      var r := cmd[i];
      assert cmd[i..][0] == r && cmd[i..][1..] == cmd[i + 1..];
      if r == '"' {
        inQuote := !inQuote;
      } else if r == ' ' && !inQuote {
        Associative(tokens, Flushed(cur), Split(cmd[i + 1..], "", inQuote));
        if |cur| > 0 {
          tokens := tokens + [cur];
          cur := "";
        }
      } else {
        cur := cur + [r];
      }
    }
    if |cur| > 0 {
      tokens := tokens + [cur];
    }
    if forall i :: 0 <= i < |cmd| && cmd[i] == ' ' ==> multiset(cmd[..i])['"'] % 2 == 1 {
      OnlyUnquotedSpacesSeparate(cmd);
    }
  }

  // ----- What tokens are made of -----

  /** Whether a quote is open after s. */
  function Open(s: string, inQuote: bool): bool {
    if s == "" then inQuote else Open(s[1..], if s[0] == '"' then !inQuote else inQuote)
  }

  predicate Balanced(s: string) {
    !Open(s, false)
  }

  /** The characters of s that are neither quotes nor spaces outside quotes. */
  function Kept(s: string, inQuote: bool): (kept: string)
    ensures '"' !in kept
  {
    if s == "" then ""
    else if s[0] == '"' then Kept(s[1..], !inQuote)
    else if s[0] == ' ' && !inQuote then Kept(s[1..], inQuote)
    else [s[0]] + Kept(s[1..], inQuote)
  }

  function Flat(tokens: seq<string>): string {
    if tokens == [] then "" else tokens[0] + Flat(tokens[1..])
  }

  lemma {:induction false} FlatJoin(a: seq<string>, b: seq<string>)
    ensures Flat(a + b) == Flat(a) + Flat(b)
    decreases |a|
  {
    if a == [] {
      assert a + b == b;
    } else {
      assert (a + b)[1..] == a[1..] + b;
      FlatJoin(a[1..], b);
    }
  }

  lemma {:induction false} SplitKeeps(rest: string, cur: string, inQuote: bool)
    ensures Flat(Split(rest, cur, inQuote)) == cur + Kept(rest, inQuote)
    decreases |rest|
  {
    if rest == "" {
    } else if rest[0] == '"' {
      SplitKeeps(rest[1..], cur, !inQuote);
    } else if rest[0] == ' ' && !inQuote {
      SplitKeeps(rest[1..], "", inQuote);
      FlatJoin(Flushed(cur), Split(rest[1..], "", inQuote));
    } else {
      SplitKeeps(rest[1..], cur + [rest[0]], inQuote);
      Associative(cur, [rest[0]], Kept(rest[1..], inQuote));
    }
  }

  /** No character is lost, invented or moved: the tokens, none of them empty, concatenate to the
      command without its quotes and its spaces outside quotes. */
  lemma TokensKeepEverything(cmd: string)
    ensures Flat(Split(cmd, "", false)) == Kept(cmd, false)
    ensures forall t :: t in Split(cmd, "", false) ==> t != "" && '"' !in t
  {
    SplitKeeps(cmd, "", false);
    TokensAreKept(Split(cmd, "", false));
  }

  lemma {:induction false} TokensAreKept(tokens: seq<string>)
    ensures '"' !in Flat(tokens) ==> forall t :: t in tokens ==> '"' !in t
  {
    if tokens != [] {
      TokensAreKept(tokens[1..]);
      assert tokens == [tokens[0]] + tokens[1..];
    }
  }

  lemma {:induction false} KeptJoin(a: string, b: string, inQuote: bool)
    ensures Kept(a + b, inQuote) == Kept(a, inQuote) + Kept(b, Open(a, inQuote))
    decreases |a|
  {
    if a == "" {
      assert a + b == b;
    } else {
      assert (a + b)[0] == a[0] && (a + b)[1..] == a[1..] + b;
      KeptJoin(a[1..], b, if a[0] == '"' then !inQuote else inQuote);
    }
  }

  /** A quote is open exactly when the number of quotes so far is odd. */
  lemma {:induction false} OpenIsOdd(s: string, inQuote: bool)
    ensures Open(s, inQuote) <==> (multiset(s)['"'] % 2 == 1) != inQuote
    decreases |s|
  {
    if s != "" {
      assert s == [s[0]] + s[1..];
      OpenIsOdd(s[1..], if s[0] == '"' then !inQuote else inQuote);
    }
  }

  /** One more character: a quote and a space outside quotes are dropped, anything else is kept. */
  lemma KeptOneMore(s: string, c: char)
    ensures Kept(s + [c], false)
            == Kept(s, false) + if c == '"' || (c == ' ' && multiset(s)['"'] % 2 == 0) then "" else [c]
  {
    KeptJoin(s, [c], false);
    OpenIsOdd(s, false);
    assert [c][1..] == "";
  }

  lemma {:induction false} NoCutInside(rest: string, cur: string, inQuote: bool)
    requires forall i :: 0 <= i < |rest| && rest[i] == ' ' ==> Open(rest[..i], inQuote)
    ensures Split(rest, cur, inQuote) == Flushed(cur + Kept(rest, inQuote))
    decreases |rest|
  {
    if rest == "" {
      assert cur + "" == cur;
    } else {
      var c, tail := rest[0], rest[1..];
      var inside := if c == '"' then !inQuote else inQuote;
      forall i | 0 <= i < |tail| && tail[i] == ' '
        ensures Open(tail[..i], inside)
      {
        assert rest[i + 1] == ' ' && rest[..i + 1][0] == c && rest[..i + 1][1..] == tail[..i];
      }
      if c == ' ' {
        assert rest[..0] == "";
        assert Open(rest[..0], inQuote);
      }
      NoCutInside(tail, if c == '"' then cur else cur + [c], inside);
      Associative(cur, [c], Kept(tail, inside));
    }
  }

  /** Nothing but a space outside quotes separates: a command all of whose spaces come after an odd
      number of quotes is one token, made of everything but its quotes, or none if that is empty. */
  lemma OnlyUnquotedSpacesSeparate(cmd: string)
    requires forall i :: 0 <= i < |cmd| && cmd[i] == ' ' ==> multiset(cmd[..i])['"'] % 2 == 1
    ensures Split(cmd, "", false) == if Kept(cmd, false) == "" then [] else [Kept(cmd, false)]
  {
    forall i | 0 <= i < |cmd| && cmd[i] == ' '
      ensures Open(cmd[..i], false)
    {
      OpenIsOdd(cmd[..i], false);
    }
    NoCutInside(cmd, "", false);
    assert "" + Kept(cmd, false) == Kept(cmd, false);
  }

  // ----- Joining commands -----

  lemma {:induction false} SplitJoin(a: string, b: string, cur: string, inQuote: bool)
    requires !Open(a, inQuote)
    ensures Split(a + " " + b, cur, inQuote) == Split(a, cur, inQuote) + Split(b, "", false)
    decreases |a|
  {
    var all := a + " " + b;
    if a == "" {
      assert all[0] == ' ' && all[1..] == b;
    } else {
      var c, rest := a[0], a[1..];
      assert all[0] == c && all[1..] == rest + " " + b;
      if c == '"' {
        SplitJoin(rest, b, cur, !inQuote);
      } else if c == ' ' && !inQuote {
        SplitJoin(rest, b, "", inQuote);
        Associative(Flushed(cur), Split(rest, "", inQuote), Split(b, "", false));
      } else {
        SplitJoin(rest, b, cur + [c], inQuote);
      }
    }
  }

  /** Joining two commands with a space joins their tokens, whatever the second command is, exactly
      when the quotes of the first are balanced. */
  lemma JoinsTokensExactlyWhen(a: string)
    ensures (forall b :: Split(a + " " + b, "", false) == Split(a, "", false) + Split(b, "", false))
            <==> multiset(a)['"'] % 2 == 0
  {
    OpenIsOdd(a, false);
    if Balanced(a) {
      forall b
        ensures Split(a + " " + b, "", false) == Split(a, "", false) + Split(b, "", false)
      {
        SplitJoin(a, b, "", false);
      }
    } else {
      KeptJoin(a, " ", false);
      assert Kept(" ", true) == " ";
      SplitKeeps(a + " ", "", false);
      SplitKeeps(a, "", false);
      assert a + " " + "" == a + " ";
      assert Split(a, "", false) + Split("", "", false) == Split(a, "", false);
    }
  }

  // ----- Quoting -----

  /** Each token in quotes, separated by spaces. */
  function Quoted(tokens: seq<string>): string {
    if tokens == [] then ""
    else if |tokens| == 1 then "\"" + tokens[0] + "\""
    else "\"" + tokens[0] + "\"" + " " + Quoted(tokens[1..])
  }

  lemma {:induction false} SplitQuoted(t: string, rest: string, cur: string)
    requires '"' !in t
    ensures Split(t + "\"" + rest, cur, true) == Split(rest, cur + t, false)
    ensures Open(t + "\"" + rest, true) == Open(rest, false)
    decreases |t|
  {
    var all := t + "\"" + rest;
    if t == "" {
      assert all[0] == '"' && all[1..] == rest && cur + t == cur;
    } else {
      assert all[0] == t[0] && all[1..] == t[1..] + "\"" + rest;
      SplitQuoted(t[1..], rest, cur + [t[0]]);
      assert cur + [t[0]] + t[1..] == cur + t;
    }
  }

  lemma QuotedToken(t: string)
    requires '"' !in t
    ensures Split("\"" + t + "\"", "", false) == Flushed(t) && Balanced("\"" + t + "\"")
  {
    var all := "\"" + t + "\"";
    assert all[0] == '"' && all[1..] == t + "\"" + "";
    SplitQuoted(t, "", "");
    assert "" + t == t;
  }

  lemma {:induction false} QuotingIsUndone(tokens: seq<string>)
    requires forall t :: t in tokens ==> t != "" && '"' !in t
    ensures Split(Quoted(tokens), "", false) == tokens
  {
    if tokens != [] {
      QuotedToken(tokens[0]);
      if |tokens| > 1 {
        assert forall t :: t in tokens[1..] ==> t in tokens;
        QuotingIsUndone(tokens[1..]);
        SplitJoin("\"" + tokens[0] + "\"", Quoted(tokens[1..]), "", false);
        assert tokens == [tokens[0]] + tokens[1..];
      }
    }
  }

  /** Quoting a list of tokens and tokenising gives the list back exactly when no token is empty or
      contains a quote: there is no way to write such tokens. */
  lemma RoundTripExactlyWhen(tokens: seq<string>)
    ensures Split(Quoted(tokens), "", false) == tokens <==> forall t :: t in tokens ==> t != "" && '"' !in t
  {
    TokensKeepEverything(Quoted(tokens));
    if forall t :: t in tokens ==> t != "" && '"' !in t {
      QuotingIsUndone(tokens);
    }
  }

  // ----- Commands -----

  /** None when the language is not compiled.  The name of the source file is not used. */
  method BuildCompileCommand(compileCommand: Option<string>, sourceFile: string) returns (r: Option<seq<string>>)
    ensures r.None? <==> compileCommand in {None, Some("")}
    ensures r.Some? ==> r.value == Split(compileCommand.value, "", false)
  {
    if compileCommand.None? || compileCommand.value == "" {
      return None;
    }
    var tokens := Tokenise(compileCommand.value);
    r := Some(tokens);
  }

  /** A run command with balanced quotes is extended as if the arguments had been typed after it. */
  method BuildRunCommand(runCommand: string, sourceFile: string, args: string) returns (tokens: seq<string>)
    ensures tokens == Split(runCommand, "", false) + Split(args, "", false)
    ensures Balanced(runCommand) ==> tokens == Split(runCommand + " " + args, "", false)
  {
    tokens := Tokenise(runCommand);
    if args != "" {
      var more := Tokenise(args);
      tokens := tokens + more;
    }
    if Balanced(runCommand) {
      SplitJoin(runCommand, args, "", false);
    }
  }
}
