/** The desktop notification of scripts/hooks/notification/notify.js: how
    its title, message and shell command are put together. The hook's stdin,
    environment, prompt file, working directory and `path.basename` are
    parameters. */
module Notify {
  import opened Nullable
  import opened JsText

  const Quote: char := '\''
  const Backslash: char := '\\'

  /** How often `c` occurs in `s`. */
  function Occurrences(s: string, c: char): nat {
    if s == [] then 0 else (if s[0] == c then 1 else 0) + Occurrences(s[1..], c)
  }

  /** The four characters that stand for one quote inside a single-quoted
      shell word: close the quotes, an escaped quote, reopen. */
  const EscapedQuote: string := [Quote, Backslash, Quote, Quote]

  /** `escapeQuotes`: `str.replace(/'/g, "'\\''")`. */
  function EscapeQuotes(s: string): (r: string)
    ensures |r| == |s| + 3 * Occurrences(s, Quote)
    ensures Quote !in s ==> r == s
  {
    if s == [] then []
    else (if s[0] == Quote then EscapedQuote else [s[0]]) + EscapeQuotes(s[1..])
  }

  /** Prepends `c` to a parsed word. */
  function Cons(c: char, w: Option<string>): Option<string> {
    if w.None? then None else Some([c] + w.value)
  }

  /** The value of a shell word made only of single-quoted runs and
      backslash-escaped characters, following section 2.2.2 "Single-Quotes"
      and section 2.2.1 "Escape Character (Backslash)" of the POSIX Shell
      Command Language: inside quotes every character but `'` is literal; an
      unterminated quote, a trailing backslash or any other unquoted
      character is not such a word (`None`). */
  function Unquote(w: string, inQuotes: bool): Option<string> {
    if w == [] then (if inQuotes then None else Some([]))
    else if inQuotes then
      if w[0] == Quote then Unquote(w[1..], false) else Cons(w[0], Unquote(w[1..], true))
    else if w[0] == Quote then Unquote(w[1..], true)
    else if w[0] == Backslash && |w| >= 2 then Cons(w[1], Unquote(w[2..], false))
    else None
  }

  /** `'${escapeQuotes(s)}'`: the word the command line gives a value. */
  function Quoted(s: string): string {
    [Quote] + EscapeQuotes(s) + [Quote]
  }

  /** Inside quotes, the four-character escape reads as one quote. */
  lemma UnquoteEscapedQuote(tail: string, rest: string)
    requires Unquote(tail, true) == Some(rest)
    ensures Unquote(EscapedQuote + tail, true) == Some([Quote] + rest)
  {
    var w := EscapedQuote + tail;
    var v := [Backslash, Quote, Quote] + tail;
    assert w[1..] == v;
    assert v[2..] == [Quote] + tail;
    assert ([Quote] + tail)[1..] == tail;
    assert Unquote([Quote] + tail, false) == Some(rest);
    assert Unquote(v, false) == Cons(Quote, Some(rest));
  }

  /** Inside quotes, any other character reads as itself. */
  lemma UnquotePlain(c: char, tail: string, rest: string)
    requires c != Quote
    requires Unquote(tail, true) == Some(rest)
    ensures Unquote([c] + tail, true) == Some([c] + rest)
  {
    assert ([c] + tail)[1..] == tail;
  }

  lemma {:induction false} UnquoteEscaped(s: string)
    ensures Unquote(EscapeQuotes(s) + [Quote], true) == Some(s)
  {
    if s == [] {
      assert EscapeQuotes(s) + [Quote] == [Quote];
    } else {
      var tail := EscapeQuotes(s[1..]) + [Quote];
      UnquoteEscaped(s[1..]);
      if s[0] == Quote {
        assert EscapeQuotes(s) + [Quote] == EscapedQuote + tail;
        UnquoteEscapedQuote(tail, s[1..]);
      } else {
        assert EscapeQuotes(s) + [Quote] == [s[0]] + tail;
        UnquotePlain(s[0], tail, s[1..]);
      }
      assert [s[0]] + s[1..] == s;
    }
  }

  /** The shell reads every quoted value back exactly, quotes included, so
      a title or message cannot end its argument early. */
  lemma QuotedRoundTrip(s: string)
    ensures Unquote(Quoted(s), false) == Some(s)
  {
    UnquoteEscaped(s);
    assert Quoted(s)[1..] == EscapeQuotes(s) + [Quote];
  }

  const PromptLimit: nat := 50
  const CommandLimit: nat := 40
  const Ellipsis: string := "..."

  /** The saved prompt, or the read failing. */
  datatype PromptFile = PromptText(text: string) | Unreadable

  datatype ToolInput = ToolInput(command: Option<string>, filePath: Option<string>, description: Option<string>)

  /** The parsed stdin; input that is not JSON reads as all-`None`. */
  datatype HookInput = HookInput(sessionId: Option<string>, toolName: Option<string>, toolInput: Option<ToolInput>)

  datatype Env = Env(zedTerm: Option<string>, bundleIdentifier: Option<string>,
                     vscodeIpcHandle: Option<string>, claudeSessionId: Option<string>)

  /** The prompt's first 50 characters with newlines as spaces, and `...`
      when it was longer. */
  function PromptContext(prompt: string): (c: string)
    ensures |prompt| <= PromptLimit ==> |c| == |prompt|
    ensures |prompt| > PromptLimit ==> |c| == PromptLimit + 3 && c[PromptLimit..] == Ellipsis
    ensures forall i :: 0 <= i < |c| && i < PromptLimit ==> c[i] == (if prompt[i] == '\n' then ' ' else prompt[i])
  {
    ReplaceChar(Take(prompt, PromptLimit), '\n', ' ') + (if |prompt| > PromptLimit then Ellipsis else "")
  }

  function OrEmpty(s: Option<string>): string {
    if Truthy(s) then s.value else ""
  }

  /** The fallback context from the tool the hook reports. */
  function ToolContext(toolName: string, input: ToolInput, basename: string -> string): (c: string)
    ensures toolName == "Bash" ==>
              var cmd := OrEmpty(input.command);
              c == "Bash: " + Take(cmd, CommandLimit) + (if |cmd| > CommandLimit then Ellipsis else "")
    ensures toolName in {"Edit", "Write", "Read"} ==> c == toolName + ": " + basename(OrEmpty(input.filePath))
    ensures toolName == "Task" ==> c == "Task: " + OrEmpty(input.description)
    ensures toolName !in {"Bash", "Edit", "Write", "Read", "Task"} ==> c == toolName
  {
    if toolName == "Bash" then
      var cmd := OrEmpty(input.command);
      toolName + ": " + Take(cmd, CommandLimit) + (if input.command.Some? && |input.command.value| > CommandLimit then Ellipsis else "")
    else if toolName == "Edit" || toolName == "Write" || toolName == "Read" then
      toolName + ": " + basename(OrEmpty(input.filePath))
    else if toolName == "Task" then
      toolName + ": " + OrEmpty(input.description)
    else toolName
  }

  /** `context`: from a readable prompt file (nothing when it is empty);
      otherwise from the tool, when one is named. */
  function Context(file: PromptFile, data: HookInput, basename: string -> string): (c: string)
    ensures file.PromptText? && file.text == "" ==> c == ""
    ensures file.PromptText? && file.text != "" ==> c == PromptContext(file.text)
    ensures file.Unreadable? && !Truthy(data.toolName) ==> c == ""
    ensures file.Unreadable? && Truthy(data.toolName) ==>
              c == ToolContext(data.toolName.value, data.toolInput.GetOr(ToolInput(None, None, None)), basename)
  {
    match file
    case PromptText(text) => if text != "" then PromptContext(text) else ""
    case Unreadable =>
      if Truthy(data.toolName) then
        ToolContext(data.toolName.value, data.toolInput.GetOr(ToolInput(None, None, None)), basename)
      else ""
  }

  const SessionIdLength: nat := 8

  /** The first eight characters of the first present session id. */
  function SessionId(data: HookInput, env: Env): (id: string)
    ensures |id| <= SessionIdLength
    ensures Truthy(data.sessionId) ==> id == Take(data.sessionId.value, SessionIdLength)
    ensures !Truthy(data.sessionId) && Truthy(env.claudeSessionId) ==> id == Take(env.claudeSessionId.value, SessionIdLength)
    ensures !Truthy(data.sessionId) && !Truthy(env.claudeSessionId) ==> id == "unknown"
  {
    var source := if Truthy(data.sessionId) then data.sessionId.value
                  else if Truthy(env.claudeSessionId) then env.claudeSessionId.value
                  else "unknown";
    Take(source, SessionIdLength)
  }

  /** The editor hosting the terminal. */
  function Ide(env: Env): (ide: string)
    ensures ide == "Zed" <==> Truthy(env.zedTerm)
    ensures ide == "Cursor" <==> !Truthy(env.zedTerm) && Includes(ToLower(OrEmpty(env.bundleIdentifier)), "cursor")
    ensures ide == "VSCode" <==> !Truthy(env.zedTerm) && !Includes(ToLower(OrEmpty(env.bundleIdentifier)), "cursor")
                                 && Truthy(env.vscodeIpcHandle)
    ensures ide in {"Zed", "Cursor", "VSCode", "CLI"}
  {
    if Truthy(env.zedTerm) then "Zed"
    else if Includes(ToLower(OrEmpty(env.bundleIdentifier)), "cursor") then "Cursor"
    else if Truthy(env.vscodeIpcHandle) then "VSCode"
    else "CLI"
  }

  /** The base message followed, on its own line, by a non-empty context. */
  function Message(base: string, context: string): (m: string)
    ensures context == "" ==> m == base
    ensures context != "" ==> |m| == |base| + 1 + |context| && m[..|base|] == base && m[|base|] == '\n' && m[|base| + 1..] == context
  {
    if context != "" then base + "\n" + context else base
  }

  /** `Claude [ide:project:sessionId]`. */
  function Title(ide: string, project: string, sessionId: string): (t: string)
    ensures |t| == |ide| + |project| + |sessionId| + 11
    ensures t[..8] == "Claude [" && t[|t| - 1] == ']'
    ensures t[8..8 + |ide|] == ide && t[8 + |ide|] == ':'
    ensures t[|t| - 1 - |sessionId|..|t| - 1] == sessionId && t[|t| - 2 - |sessionId|] == ':'
    ensures t[9 + |ide|..|t| - 2 - |sessionId|] == project
  {
    var head := "Claude [" + ide + ":";
    var t := head + project + ":" + sessionId + "]";
    assert t[..8] == "Claude [" && t[8..8 + |ide|] == ide by { assert t[..|head|] == head; }
    assert t[8 + |ide|] == ':';
    assert t[|t| - 2 - |sessionId|] == ':';
    assert t[|t| - 1 - |sessionId|..|t| - 1] == sessionId;
    assert t[9 + |ide|..|t| - 2 - |sessionId|] == project;
    t
  }

  const Notifier: string := "/opt/homebrew/bin/terminal-notifier"
  const TitleFlag: string := " -title "
  const MessageFlag: string := " -message "

  /** Where the quoted title starts on the command line. */
  const TitleStart: nat := |Notifier| + |TitleFlag|

  /** Where the quoted message starts, after a title of the given length. */
  function MessageStart(title: string): nat {
    TitleStart + |Quoted(title)| + |MessageFlag|
  }

  /** The flags after the message; they open with a blank. */
  const SoundFlags: string := " " + "-sound default -activate com.todesktop.230313mzl4w4u92"

  /** In `a + f1 + qt + f2 + qm + t`, each quoted word sits at its own
      offset, and blanks that close `f1`, open and close `f2` and open `t`
      stand on either side of it. */
  lemma WordsAt(a: string, f1: string, qt: string, f2: string, qm: string, t: string)
    requires |f1| > 0 && f1[|f1| - 1] == ' '
    requires |f2| > 0 && f2[0] == ' ' && f2[|f2| - 1] == ' '
    requires |t| > 0 && t[0] == ' '
    ensures var r := a + f1 + qt + f2 + qm + t;
            var ts := |a| + |f1|;
            var ms := ts + |qt| + |f2|;
            && ms + |qm| < |r|
            && r[..|a|] == a
            && r[ts..ts + |qt|] == qt && r[ts - 1] == ' ' && r[ts + |qt|] == ' '
            && r[ms..ms + |qm|] == qm && r[ms - 1] == ' ' && r[ms + |qm|] == ' '
  {
    var head := a + f1;
    var mid := head + qt + f2;
    var r := a + f1 + qt + f2 + qm + t;
    assert r[..|mid|] == mid;
    assert mid[..|head|] == head;
    assert head[..|a|] == a;
    assert head[|head| - 1] == f1[|f1| - 1];
    assert mid[|head|..|head| + |qt|] == qt;
    assert mid[|head| + |qt|] == f2[0];
    assert mid[|mid| - 1] == f2[|f2| - 1];
    assert r[|mid|..|mid| + |qm|] == qm;
    assert r[|mid| + |qm|] == t[0];
  }

  /** The command line the hook runs: the title and the message each occupy
      one single-quoted word that the shell reads back as exactly that text,
      so neither can end its argument early or inject a command. */
  function Command(title: string, message: string): (r: string)
    ensures MessageStart(title) + |Quoted(message)| < |r|
    ensures r[..|Notifier|] == Notifier
    ensures Unquote(r[TitleStart..TitleStart + |Quoted(title)|], false) == Some(title)
    ensures Unquote(r[MessageStart(title)..MessageStart(title) + |Quoted(message)|], false) == Some(message)
    ensures r[TitleStart - 1] == ' ' && r[TitleStart + |Quoted(title)|] == ' '
    ensures r[MessageStart(title) - 1] == ' ' && r[MessageStart(title) + |Quoted(message)|] == ' '
  {
    var qt := Quoted(title);
    var qm := Quoted(message);
    assert TitleFlag[|TitleFlag| - 1] == ' ' && MessageFlag[0] == ' ' && MessageFlag[|MessageFlag| - 1] == ' ';
    assert SoundFlags[0] == ' ';
    WordsAt(Notifier, TitleFlag, qt, MessageFlag, qm, SoundFlags);
    QuotedRoundTrip(title);
    QuotedRoundTrip(message);
    Notifier + TitleFlag + qt + MessageFlag + qm + SoundFlags
  }

  /** The whole hook: `argv2` is the base message argument, `project` the
      working directory's base name. The title argument reads back as the
      title of the editor, project and session; the message argument as the
      base message (`Notification` when none is given) and its context. */
  function NotifyCommand(argv2: Option<string>, data: HookInput, env: Env, file: PromptFile,
                         project: string, basename: string -> string): (r: string)
    ensures var title := Title(Ide(env), project, SessionId(data, env));
            var base := if Truthy(argv2) then argv2.value else "Notification";
            var message := Message(base, Context(file, data, basename));
            MessageStart(title) + |Quoted(message)| <= |r|
            && Unquote(r[MessageStart(title)..MessageStart(title) + |Quoted(message)|], false) == Some(message)
    ensures var title := Title(Ide(env), project, SessionId(data, env));
            Unquote(r[TitleStart..TitleStart + |Quoted(title)|], false) == Some(title)
  {
    var base := if Truthy(argv2) then argv2.value else "Notification";
    var title := Title(Ide(env), project, SessionId(data, env));
    Command(title, Message(base, Context(file, data, basename)))
  }

  /** A missing or empty message argument is the same as `Notification`. */
  lemma DefaultBaseMessage(data: HookInput, env: Env, file: PromptFile, project: string, basename: string -> string)
    ensures NotifyCommand(None, data, env, file, project, basename)
            == NotifyCommand(Some(""), data, env, file, project, basename)
            == NotifyCommand(Some("Notification"), data, env, file, project, basename)
  {
  }

  /** A long prompt shows its first fifty characters and an ellipsis. */
  lemma LongPromptTruncated(prompt: string)
    requires |prompt| > PromptLimit && '\n' !in prompt
    ensures Context(PromptText(prompt), HookInput(None, None, None), s => s) == prompt[..PromptLimit] + Ellipsis
  {
    var c := PromptContext(prompt);
    assert c[..PromptLimit] == prompt[..PromptLimit];
  }

  /** A readable prompt file wins over the tool information, even when it is
      empty. */
  lemma PromptFileWins(text: string, data: HookInput, basename: string -> string)
    ensures Context(PromptText(text), data, basename) == Context(PromptText(text), HookInput(None, None, None), basename)
  {
  }
}
