/** Quoting of command words for a remote POSIX shell. */
module ShellQuoting {
  import opened Texts
  import opened Wrappers

  // ---- Quoting, as the SSH layer writes it ----

  /** Every single quote becomes: close the quotes, a double-quoted single quote, open them again. */
  function EscapeSingleQuotes(value: string): string {
    if value == "" then ""
    else (if value[0] == '\'' then "'\"'\"'" else [value[0]]) + EscapeSingleQuotes(value[1..])
  }

  function ShellSingleQuote(value: string): string {
    "'" + EscapeSingleQuotes(value) + "'"
  }

  function ShellJoin(args: seq<string>): string {
    if args == [] then ""
    else if |args| == 1 then ShellSingleQuote(args[0])
    else ShellSingleQuote(args[0]) + " " + ShellJoin(args[1..])
  }

  datatype CommandPrivilege = User | Root

  datatype ConnectionInfo = ConnectionInfo(host: string, port: string, user: string, privateKey: string)

  function BaseArgs(connection: ConnectionInfo, nullDevice: string): seq<string> {
    [ "-i", connection.privateKey, "-p", connection.port, "-o", "BatchMode=yes", "-o", "IdentitiesOnly=yes",
      "-o", "ConnectTimeout=5", "-o", "StrictHostKeyChecking=no", "-o", "UserKnownHostsFile=" + nullDevice,
      "-o", "LogLevel=ERROR" ]
  }

  function RemoteCommand(command: string, privilege: CommandPrivilege): string {
    match privilege
    case User => "sh -lc " + ShellSingleQuote(command)
    case Root => "sudo -n sh -lc " + ShellSingleQuote(command)
  }

  function CommandArgs(connection: ConnectionInfo, nullDevice: string, command: string, privilege: CommandPrivilege)
    : seq<string>
  {
    BaseArgs(connection, nullDevice)
    + [connection.user + "@" + connection.host]
    + [RemoteCommand(command, privilege)]
  }

  // ---- Reading a command line, after sections 2.2 and 2.3 of the POSIX Shell Command Language ----

  /** Where the reader stands: between words, in a word, or in a quoted part of one. */
  datatype Place =
    | Between
    | Unquoted(word: string)
    | SingleQuoted(word: string)
    | DoubleQuoted(word: string)

  /** Operators, expansions, patterns and the like: their meaning is not modelled. */
  predicate IsSpecial(c: char) {
    c in "|&;<>()$`\n*?[#~=%!{}"
  }

  function WordSoFar(place: Place): string {
    if place.Between? then "" else place.word
  }

  function EndWord(place: Place, words: seq<string>): seq<string> {
    if place.Between? then words else words + [place.word]
  }

  /**
   * The words of a command line after quote removal; None for a line that ends inside quotes,
   * uses an unquoted special character, or holds a NUL, which no shell word can.
   */
  function ReadWords(line: string, place: Place, words: seq<string>): Option<seq<string>>
    decreases |line|
  {
    if line == "" then
      match place
      case Between => Some(words)
      case Unquoted(w) => Some(words + [w])
      case _ => None
    else
      var c, rest := line[0], line[1..];
      if c == '\0' then None
      else match place {
        case SingleQuoted(w) =>
          if c == '\'' then ReadWords(rest, Unquoted(w), words)
          else ReadWords(rest, SingleQuoted(w + [c]), words)
        case DoubleQuoted(w) =>
          if c == '"' then ReadWords(rest, Unquoted(w), words)
          else if c == '$' || c == '`' then None
          else if c == '\\' && rest != "" && rest[0] in "$`\"\\" then
            ReadWords(rest[1..], DoubleQuoted(w + [rest[0]]), words)
          else if c == '\\' && rest != "" && rest[0] == '\n' then ReadWords(rest[1..], place, words)
          else ReadWords(rest, DoubleQuoted(w + [c]), words)
        case _ =>
          if c == ' ' || c == '\t' then
            ReadWords(rest, Between, EndWord(place, words))
          else if c == '\'' then ReadWords(rest, SingleQuoted(WordSoFar(place)), words)
          else if c == '"' then ReadWords(rest, DoubleQuoted(WordSoFar(place)), words)
          else if c == '\\' then
            if rest == "" || rest[0] == '\0' then None
            else if rest[0] == '\n' then ReadWords(rest[1..], place, words)
            else ReadWords(rest[1..], Unquoted(WordSoFar(place) + [rest[0]]), words)
          else if IsSpecial(c) then None
          else ReadWords(rest, Unquoted(WordSoFar(place) + [c]), words)
      }
  }

  function Tokenize(line: string): Option<seq<string>> {
    ReadWords(line, Between, [])
  }

  // ---- Reading undoes quoting ----

  lemma {:induction false} ReadEscaped(value: string, tail: string, w: string, words: seq<string>)
    ensures ReadWords(EscapeSingleQuotes(value) + "'" + tail, SingleQuoted(w), words)
         == if NulFree(value) then ReadWords(tail, Unquoted(w + value), words) else None
    decreases |value|
  {
    var line := EscapeSingleQuotes(value) + "'" + tail;
    if value == "" {
      assert line[1..] == tail;
      assert w + value == w;
    } else {
      var c, more := value[0], value[1..];
      var next := EscapeSingleQuotes(more) + "'" + tail;
      assert w + value == w + [c] + more;
      if c == '\'' {
        assert line == "'\"'\"'" + next;
        assert line[1..][1..][1..][1..] == "'" + next;
        assert ("'" + next)[1..] == next;
        calc {
          ReadWords(line, SingleQuoted(w), words);
          ReadWords(line[1..], Unquoted(w), words);
          ReadWords(line[1..][1..], DoubleQuoted(w), words);
          ReadWords(line[1..][1..][1..], DoubleQuoted(w + ['\'']), words);
          ReadWords("'" + next, Unquoted(w + ['\'']), words);
          ReadWords(next, SingleQuoted(w + ['\'']), words);
        }
      } else {
        assert line[1..] == next;
      }
      ReadEscaped(more, tail, w + [c], words);
    }
  }

  /** A quoted value is read back as one piece of a word, whatever follows it. */
  lemma ReadQuoted(value: string, tail: string, words: seq<string>)
    ensures ReadWords(ShellSingleQuote(value) + tail, Between, words)
         == if NulFree(value) then ReadWords(tail, Unquoted(value), words) else None
  {
    var line := ShellSingleQuote(value) + tail;
    assert line[1..] == EscapeSingleQuotes(value) + "'" + tail;
    ReadEscaped(value, tail, "", words);
    assert "" + value == value;
  }

  lemma {:induction false} ReadJoined(args: seq<string>, words: seq<string>)
    ensures ReadWords(ShellJoin(args), Between, words)
         == if forall a :: a in args ==> NulFree(a) then Some(words + args) else None
    decreases |args|
  {
    if args == [] {
      assert words + args == words;
    } else if |args| == 1 {
      ReadQuoted(args[0], "", words);
      assert ShellJoin(args) == ShellSingleQuote(args[0]) + "";
      assert words + args == words + [args[0]];
    } else {
      var tail := " " + ShellJoin(args[1..]);
      ReadQuoted(args[0], tail, words);
      assert ShellJoin(args) == ShellSingleQuote(args[0]) + tail;
      assert tail[1..] == ShellJoin(args[1..]);
      ReadJoined(args[1..], words + [args[0]]);
      assert words + [args[0]] + args[1..] == words + args;
      assert forall a :: a in args <==> a == args[0] || a in args[1..];
    }
  }

  /** The shell reads a joined argument list back exactly, if and only if no argument holds a NUL. */
  lemma ShellJoinRoundTrips(args: seq<string>)
    ensures Tokenize(ShellJoin(args)) == Some(args) <==> forall a :: a in args ==> NulFree(a)
  {
    ReadJoined(args, []);
    assert [] + args == args;
  }

  /** Words made of plain characters are read as they are. */
  predicate IsPlain(s: string) {
    forall i :: 0 <= i < |s| ==> s[i] !in "\0 \t'\"\\" && !IsSpecial(s[i])
  }

  lemma {:induction false} ReadPlain(plain: string, tail: string, w: string, words: seq<string>)
    requires IsPlain(plain)
    ensures ReadWords(plain + tail, Unquoted(w), words) == ReadWords(tail, Unquoted(w + plain), words)
    decreases |plain|
  {
    if plain == "" {
      assert plain + tail == tail && w + plain == w;
    } else {
      assert (plain + tail)[1..] == plain[1..] + tail;
      assert w + plain == w + [plain[0]] + plain[1..];
      ReadPlain(plain[1..], tail, w + [plain[0]], words);
    }
  }

  lemma ReadPlainWord(plain: string, tail: string, words: seq<string>)
    requires plain != "" && IsPlain(plain)
    ensures ReadWords(plain + " " + tail, Between, words) == ReadWords(tail, Between, words + [plain])
  {
    var line, gap := plain + " " + tail, " " + tail;
    assert line[0] == plain[0] && line[1..] == plain[1..] + gap;
    assert "" + [plain[0]] == [plain[0]];
    ReadPlain(plain[1..], gap, [plain[0]], words);
    assert [plain[0]] + plain[1..] == plain;
    assert gap[0] == ' ' && gap[1..] == tail;
  }

  function RemoteWords(command: string, privilege: CommandPrivilege): seq<string> {
    if privilege.User? then ["sh", "-lc", command] else ["sudo", "-n", "sh", "-lc", command]
  }

  /**
   * The remote command is the last argument, and the remote shell reads it as the login shell
   * invocation with the whole original command as one word, if and only if that holds no NUL.
   */
  lemma RemoteCommandIsOneWord(connection: ConnectionInfo, nullDevice: string, command: string,
                               privilege: CommandPrivilege)
    ensures var args := CommandArgs(connection, nullDevice, command, privilege);
            && |args| == |BaseArgs(connection, nullDevice)| + 2
            && args[..|args| - 2] == BaseArgs(connection, nullDevice)
            && args[|args| - 2] == connection.user + "@" + connection.host
            && (Tokenize(args[|args| - 1]) == Some(RemoteWords(command, privilege)) <==> NulFree(command))
  {
    var args := CommandArgs(connection, nullDevice, command, privilege);
    ReadRemoteCommand(command, privilege);
    assert args == BaseArgs(connection, nullDevice) + [args[|args| - 2]] + [RemoteCommand(command, privilege)];
  }

  function SpaceJoin(plain: seq<string>, last: string): string {
    if plain == [] then last else plain[0] + " " + SpaceJoin(plain[1..], last)
  }

  lemma {:induction false} ReadPlainThenQuoted(plain: seq<string>, command: string, words: seq<string>)
    requires forall i :: 0 <= i < |plain| ==> plain[i] != "" && IsPlain(plain[i])
    ensures ReadWords(SpaceJoin(plain, ShellSingleQuote(command)), Between, words)
         == if NulFree(command) then Some(words + plain + [command]) else None
    decreases |plain|
  {
    if plain == [] {
      ReadQuoted(command, "", words);
      assert ShellSingleQuote(command) + "" == ShellSingleQuote(command);
      assert words + plain == words;
    } else {
      ReadPlainWord(plain[0], SpaceJoin(plain[1..], ShellSingleQuote(command)), words);
      ReadPlainThenQuoted(plain[1..], command, words + [plain[0]]);
      assert words + [plain[0]] + plain[1..] == words + plain;
    }
  }

  function ShellWords(privilege: CommandPrivilege): seq<string> {
    if privilege.User? then ["sh", "-lc"] else ["sudo", "-n", "sh", "-lc"]
  }

  lemma ShellWordsArePlain(privilege: CommandPrivilege)
    ensures var w := ShellWords(privilege); forall i :: 0 <= i < |w| ==> w[i] != "" && IsPlain(w[i])
  {
    assert IsLowerOrDash("sudo") && IsLowerOrDash("-n") && IsLowerOrDash("sh") && IsLowerOrDash("-lc");
    LettersArePlain("sudo");
    LettersArePlain("-n");
    LettersArePlain("sh");
    LettersArePlain("-lc");
  }

  predicate IsLowerOrDash(s: string) {
    forall i :: 0 <= i < |s| ==> 'a' <= s[i] <= 'z' || s[i] == '-'
  }

  lemma LettersArePlain(s: string)
    requires IsLowerOrDash(s)
    ensures IsPlain(s)
  {
  }

  lemma RemoteCommandIsJoin(command: string, privilege: CommandPrivilege)
    ensures RemoteCommand(command, privilege) == SpaceJoin(ShellWords(privilege), ShellSingleQuote(command))
  {
    var q := ShellSingleQuote(command);
    var w := ["sudo", "-n", "sh", "-lc"];
    assert SpaceJoin([], q) == q;
    assert w[1..][1..][1..] == ["-lc"] && w[1..][1..] == ["sh", "-lc"] && w[1..] == ["-n", "sh", "-lc"];
    assert SpaceJoin(["-lc"], q) == "-lc " + q;
    assert ["sh", "-lc"][1..] == ["-lc"];
    assert SpaceJoin(["sh", "-lc"], q) == "sh -lc " + q;
    assert SpaceJoin(["-n", "sh", "-lc"], q) == "-n sh -lc " + q;
    assert SpaceJoin(w, q) == "sudo -n sh -lc " + q;
  }

  lemma ReadRemoteCommand(command: string, privilege: CommandPrivilege)
    ensures Tokenize(RemoteCommand(command, privilege))
         == if NulFree(command) then Some(RemoteWords(command, privilege)) else None
  {
    RemoteCommandIsJoin(command, privilege);
    ShellWordsArePlain(privilege);
    ReadPlainThenQuoted(ShellWords(privilege), command, []);
    assert [] + ShellWords(privilege) + [command] == RemoteWords(command, privilege);
  }
}
