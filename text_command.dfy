/** The `messageCreate` handler (src/events/textcommand.ts): filters the
    sender, checks the prefix, splits the rest of the line into a command
    name and its arguments, and dispatches to the text-command table. The
    user table lookup and the command's own `execute` are inputs. */
module TextCommand {
  import opened Base
  import opened Records

  datatype Author = Author(id: string, bot: bool)

  datatype Message = Message(author: Author, content: string)

  /** What the handler does with one message: nothing, or run a command
      with the sender's user record; `errorReply` is the reply sent when
      the command threw. */
  datatype Outcome =
    | NoDispatch
    | Dispatch(command: string, args: seq<string>, user: DiscordUser, errorReply: Option<string>)

  const DefaultPrefix := "cs!"

  const ErrorReply := "There was an error trying to execute that command!"

  /** `process.env.DISCORD_PREFIX || "cs!"`. */
  function Prefix(env: Option<string>): (p: string)
    ensures Truthy(env) ==> p == env.value
    ensures !Truthy(env) ==> p == DefaultPrefix
    ensures p != []
  {
    if Truthy(env) then env.value else DefaultPrefix
  }

  // ---------------------------------------------------------------------
  // String.prototype.trim

  /** White space and line terminators as ECMAScript's `trim` strips them. */
  predicate IsJsSpace(c: char)
  {
    var n := c as int;
    n == 0x09 || n == 0x0A || n == 0x0B || n == 0x0C || n == 0x0D || n == 0x20
    || n == 0xA0 || n == 0x1680 || (0x2000 <= n <= 0x200A) || n == 0x2028 || n == 0x2029
    || n == 0x202F || n == 0x205F || n == 0x3000 || n == 0xFEFF
  }

  function TrimStart(s: string): (r: string)
    ensures |r| <= |s| && r == s[|s| - |r|..]
    ensures r != [] ==> !IsJsSpace(r[0])
  {
    if s != [] && IsJsSpace(s[0]) then TrimStart(s[1..]) else s
  }

  /** What `TrimStart` cuts off is white space. */
  lemma {:induction false} TrimStartCutsSpace(s: string)
    ensures forall k :: 0 <= k < |s| - |TrimStart(s)| ==> IsJsSpace(s[k])
  {
    if s != [] && IsJsSpace(s[0]) {
      TrimStartCutsSpace(s[1..]);
      forall k | 1 <= k < |s| - |TrimStart(s)|
        ensures IsJsSpace(s[k])
      {
        assert s[k] == s[1..][k - 1];
      }
    }
  }

  function TrimEnd(s: string): (r: string)
    ensures |r| <= |s| && r == s[..|r|]
    ensures r != [] ==> !IsJsSpace(r[|r| - 1])
  {
    if s != [] && IsJsSpace(s[|s| - 1]) then TrimEnd(s[..|s| - 1]) else s
  }

  /** What `TrimEnd` cuts off is white space. */
  lemma {:induction false} TrimEndCutsSpace(s: string)
    ensures forall k :: |TrimEnd(s)| <= k < |s| ==> IsJsSpace(s[k])
  {
    if s != [] && IsJsSpace(s[|s| - 1]) {
      TrimEndCutsSpace(s[..|s| - 1]);
      forall k | |TrimEnd(s)| <= k < |s| - 1
        ensures IsJsSpace(s[k])
      {
        assert s[k] == s[..|s| - 1][k];
      }
    }
  }

  /** `s.trim()`: the ends of the result are not white space. */
  function Trim(s: string): (r: string)
    ensures |r| <= |s|
    ensures r != [] ==> !IsJsSpace(r[0]) && !IsJsSpace(r[|r| - 1])
  {
    TrimEnd(TrimStart(s))
  }

  /** The trimmed text is a slice of `s`, and everything cut off on either
      side is white space. */
  lemma TrimIsSlice(s: string)
    ensures exists i, j :: 0 <= i <= j <= |s| && Trim(s) == s[i..j]
              && (forall k :: 0 <= k < i ==> IsJsSpace(s[k]))
              && (forall k :: j <= k < |s| ==> IsJsSpace(s[k]))
  {
    var t := TrimStart(s);
    var r := TrimEnd(t);
    var i := |s| - |t|;
    var j := i + |r|;
    TrimStartCutsSpace(s);
    TrimEndCutsSpace(t);
    assert r == s[i..j];
    forall k | j <= k < |s|
      ensures IsJsSpace(s[k])
    {
      assert s[k] == t[k - i];
    }
  }

  // ---------------------------------------------------------------------
  // String.prototype.split(/ +/)

  function SkipSpaces(s: string): (r: string)
    ensures |r| <= |s|
    ensures r != [] ==> r[0] != ' '
    ensures s != [] && s[0] == ' ' ==> |r| < |s|
  {
    if s != [] && s[0] == ' ' then SkipSpaces(s[1..]) else s
  }

  /** Splits at every maximal run of spaces. Only U+0020 separates tokens;
      tabs and newlines stay inside them. */
  function Split(s: string): (r: seq<string>)
    ensures |r| >= 1
    ensures forall k :: 0 <= k < |r| ==> ' ' !in r[k]
    ensures r[0] == [] <==> s == [] || s[0] == ' '
    decreases |s|
  {
    if s == [] then [""]
    else if s[0] == ' ' then [""] + Split(SkipSpaces(s))
    else
      var rest := Split(s[1..]);
      [[s[0]] + rest[0]] + rest[1..]
  }

  function Concat(ts: seq<string>): string
  {
    if ts == [] then [] else ts[0] + Concat(ts[1..])
  }

  function RemoveSpaces(s: string): (r: string)
  {
    if s == [] then [] else (if s[0] == ' ' then [] else [s[0]]) + RemoveSpaces(s[1..])
  }

  lemma {:induction false} RemoveLeadingSpaces(s: string)
    ensures RemoveSpaces(SkipSpaces(s)) == RemoveSpaces(s)
  {
    if s != [] && s[0] == ' ' {
      RemoveLeadingSpaces(s[1..]);
    }
  }

  /** Splitting loses nothing but the spaces. */
  lemma {:induction false} SplitKeepsText(s: string)
    ensures Concat(Split(s)) == RemoveSpaces(s)
    decreases |s|
  {
    if s == [] {
    } else if s[0] == ' ' {
      SplitKeepsText(SkipSpaces(s));
      RemoveLeadingSpaces(s);
    } else {
      var rest := Split(s[1..]);
      SplitKeepsText(s[1..]);
      assert Concat(rest) == rest[0] + Concat(rest[1..]);
      assert Split(s)[1..] == rest[1..];
    }
  }

  /** A word followed by more text: the word opens the first token. */
  lemma {:induction false} SplitWord(w: string, rest: string)
    requires ' ' !in w
    ensures Split(w + rest) == [w + Split(rest)[0]] + Split(rest)[1..]
    decreases |w|
  {
    if w != [] {
      assert (w + rest)[0] == w[0] && (w + rest)[1..] == w[1..] + rest;
      SplitWord(w[1..], rest);
      assert [w[0]] + (w[1..] + Split(rest)[0]) == w + Split(rest)[0];
    } else {
      assert w + rest == rest;
      assert w + Split(rest)[0] == Split(rest)[0];
      assert [Split(rest)[0]] + Split(rest)[1..] == Split(rest);
    }
  }

  /** Tokens joined by single spaces split back into the same tokens. */
  lemma {:induction false} SplitJoin(ts: seq<string>)
    requires |ts| >= 1
    requires forall k :: 0 <= k < |ts| ==> ts[k] != [] && ' ' !in ts[k]
    ensures Split(Join(ts, " ")) == ts
  {
    if |ts| == 1 {
      SplitWord(ts[0], []);
      assert ts[0] + [] == ts[0];
    } else {
      SplitJoin(ts[1..]);
      JoinEnds(ts[1..]);
      SplitWordSpace(ts[0], Join(ts[1..], " "));
      assert [ts[0]] + ts[1..] == ts;
    }
  }

  /** A word, one space and a text that starts with a word split into the
      word followed by the text's own tokens. */
  lemma SplitWordSpace(w: string, rest: string)
    requires ' ' !in w
    requires rest != [] && rest[0] != ' '
    ensures Split(w + " " + rest) == [w] + Split(rest)
  {
    var sr := " " + rest;
    assert sr[0] == ' ' && sr[1..] == rest;
    assert SkipSpaces(rest) == rest;
    assert SkipSpaces(sr) == rest;
    assert w + " " + rest == w + sr;
    SplitWord(w, sr);
    assert w + "" == w;
  }

  // ---------------------------------------------------------------------
  // The handler

  /** The command name and arguments of a line, or nothing when the line
      does not start with the prefix or names no command. */
  function ParseCommandLine(content: string, prefix: string): (r: Option<(string, seq<string>)>)
    ensures r.Some? ==> StartsWith(content, prefix)
    ensures r.Some? ==> r.value.0 != [] && ' ' !in r.value.0
    ensures r.Some? ==> forall k :: 0 <= k < |r.value.0| ==> !IsUpper(r.value.0[k])
    ensures r.Some? ==> forall k :: 0 <= k < |r.value.1| ==> ' ' !in r.value.1[k]
  {
    if !StartsWith(content, prefix) then None
    else
      var tokens := Split(Trim(content[|prefix|..]));
      var command := LowerString(tokens[0]);
      assert forall k :: 0 <= k < |command| ==> command[k] != ' ' by {
        forall k | 0 <= k < |command| ensures command[k] != ' ' {
          assert tokens[0][k] in tokens[0];
        }
      }
      if command == [] then None else Some((command, tokens[1..]))
  }

  /** A line names no command exactly when it lacks the prefix or nothing
      but white space follows the prefix. */
  lemma NoCommandIff(content: string, prefix: string)
    ensures ParseCommandLine(content, prefix).None?
        <==> !StartsWith(content, prefix) || Trim(content[|prefix|..]) == []
  {
    if StartsWith(content, prefix) {
      TrimmedHeadToken(content[|prefix|..]);
    }
  }

  /** The first token of a trimmed text is empty only when the text is. */
  lemma TrimmedHeadToken(s: string)
    ensures Split(Trim(s))[0] == [] <==> Trim(s) == []
  {
    var t := Trim(s);
    if t != [] {
      assert t[0] != ' ';
    }
  }

  /** A lower-case name and arguments typed after the prefix come back out
      unchanged. */
  lemma CommandLineRoundTrip(prefix: string, command: string, args: seq<string>)
    requires command != []
    requires forall k :: 0 <= k < |command| ==> !IsUpper(command[k]) && !IsJsSpace(command[k])
    requires forall k :: 0 <= k < |args| ==> args[k] != [] && forall m :: 0 <= m < |args[k]| ==> !IsJsSpace(args[k][m])
    ensures ParseCommandLine(prefix + Join([command] + args, " "), prefix) == Some((command, args))
  {
    var ts := [command] + args;
    var line := Join(ts, " ");
    var content := prefix + line;
    assert content[..|prefix|] == prefix && content[|prefix|..] == line;
    forall k | 0 <= k < |ts|
      ensures ts[k] != [] && ' ' !in ts[k]
    {
      if k > 0 {
        assert ts[k] == args[k - 1];
      }
      assert forall m :: 0 <= m < |ts[k]| ==> ts[k][m] != ' ';
    }
    JoinEnds(ts);
    TrimUnchanged(line);
    SplitJoin(ts);
    LowerStringLower(command);
  }

  /** Joined tokens begin with the first token's first character and end
      with the last token's last character. */
  lemma {:induction false} JoinEnds(ts: seq<string>)
    requires |ts| >= 1 && forall k :: 0 <= k < |ts| ==> ts[k] != []
    ensures Join(ts, " ") != []
    ensures Join(ts, " ")[0] == ts[0][0]
    ensures Join(ts, " ")[|Join(ts, " ")| - 1] == ts[|ts| - 1][|ts[|ts| - 1]| - 1]
  {
    if |ts| > 1 {
      JoinEnds(ts[1..]);
    }
  }

  lemma TrimUnchanged(s: string)
    requires s != [] && !IsJsSpace(s[0]) && !IsJsSpace(s[|s| - 1])
    ensures Trim(s) == s
  {
  }

  lemma LowerStringLower(s: string)
    requires forall k :: 0 <= k < |s| ==> !IsUpper(s[k])
    ensures LowerString(s) == s
  {
  }

  /** Tabs and newlines do not separate tokens. */
  lemma TabsStayInTokens()
    ensures Split("a\tb c") == ["a\tb", "c"]
  {
    SplitJoin(["a\tb", "c"]);
    assert Join(["a\tb", "c"], " ") == "a\tb c";
  }

  /** The `messageCreate` handler. `users` maps Discord ids to user records;
      `commands` is the set of names in the text-command table; `throws`
      says whether the command's `execute` throws. */
  function HandleMessage(msg: Message, users: map<string, DiscordUser>, prefixEnv: Option<string>,
                         commands: set<string>, throws: bool): (r: Outcome)
    ensures msg.author.bot ==> r == NoDispatch
    ensures msg.author.id !in users ==> r == NoDispatch
    ensures r.Dispatch? <==>
              !msg.author.bot && msg.author.id in users
              && ParseCommandLine(msg.content, Prefix(prefixEnv)).Some?
              && ParseCommandLine(msg.content, Prefix(prefixEnv)).value.0 in commands
    ensures r.Dispatch? ==>
              && (r.command, r.args) == ParseCommandLine(msg.content, Prefix(prefixEnv)).value
              && r.user == users[msg.author.id]
              && r.errorReply == (if throws then Some(ErrorReply) else None)
  {
    if msg.author.bot then NoDispatch
    else if msg.author.id !in users then NoDispatch
    else
      match ParseCommandLine(msg.content, Prefix(prefixEnv))
      case None => NoDispatch
      case Some((command, args)) =>
        if command !in commands then NoDispatch
        else Dispatch(command, args, users[msg.author.id], if throws then Some(ErrorReply) else None)
  }

  /** A bare prefix runs nothing, whatever the table holds. */
  lemma BarePrefixRunsNothing(msg: Message, users: map<string, DiscordUser>, prefixEnv: Option<string>,
                              commands: set<string>, throws: bool)
    requires msg.content == Prefix(prefixEnv)
    ensures HandleMessage(msg, users, prefixEnv, commands, throws) == NoDispatch
  {
    var p := Prefix(prefixEnv);
    assert msg.content[|p|..] == [];
    NoCommandIff(msg.content, p);
  }
}
