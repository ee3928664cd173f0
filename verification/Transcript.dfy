/**
 * A turn as flat text, and the regular expression that takes the user's lines out of it again:
 * `^user(?:\([^)]*\))?:\s*(.+)$`, ignoring case, with `^` and `$` at every line.
 */
module Transcript {
  import opened Tables
  import opened Text

  datatype Role = UserRole | Assistant | Tool | System

  datatype Message = Message(role: Role, content: string, name: Option<string>)

  // ---------------------------------------------------------------- printing

  function RoleName(r: Role): string {
    match r
    case UserRole => "user"
    case Assistant => "assistant"
    case Tool => "tool"
    case System => "system"
  }

  /** No two roles print the same. */
  lemma RolesDiffer(a: Role, b: Role)
    ensures RoleName(a) == RoleName(b) ==> a == b
  {
    assert RoleName(UserRole)[0] == 'u' && RoleName(Assistant)[0] == 'a';
    assert RoleName(Tool)[0] == 't' && RoleName(System)[0] == 's';
  }

  predicate Named(m: Message) {
    m.name.Some? && m.name.value != ""
  }

  function Prefix(m: Message): string {
    if Named(m) then RoleName(m.role) + "(" + m.name.value + ")" else RoleName(m.role)
  }

  function Line(m: Message): string {
    Prefix(m) + ": " + Strip(m.content)
  }

  function Lines(ms: seq<Message>): seq<string> {
    seq(|ms|, i requires 0 <= i < |ms| => Line(ms[i]))
  }

  function Flatten(ms: seq<Message>): string {
    Join(Lines(ms), "\n")
  }

  /** `flatten_messages`. */
  method FlattenMessages(ms: seq<Message>) returns (text: string)
    ensures text == Flatten(ms)
  {
    var parts: seq<string> := [];
    for i := 0 to |ms|
      invariant parts == Lines(ms)[..i]
    {
      var prefix := RoleName(ms[i].role);
      if ms[i].name.Some? && ms[i].name.value != "" {
        prefix := prefix + "(" + ms[i].name.value + ")";
      }
      parts := parts + [prefix + ": " + Strip(ms[i].content)];
    }
    assert Lines(ms)[..|ms|] == Lines(ms);
    text := Join(parts, "\n");
  }

  // ---------------------------------------------------------------- parsing

  /** The position of the first `c` in `s`, or its length. */
  function IndexOf(s: string, c: char): (n: nat)
    ensures n <= |s| && (n < |s| ==> s[n] == c) && forall i | 0 <= i < n :: s[i] != c
  {
    if s == "" || s[0] == c then 0 else 1 + IndexOf(s[1..], c)
  }

  /** `user`, ignoring case as Python does: the long s counts as an s. */
  predicate StartsWithUser(t: string) {
    |t| >= 4 && (t[0] == 'u' || t[0] == 'U') && (t[1] == 's' || t[1] == 'S' || t[1] == '\U{017f}')
    && (t[2] == 'e' || t[2] == 'E') && (t[3] == 'r' || t[3] == 'R')
  }

  /** What follows `user` and the optional name in parentheses, if that is a colon: the text after the colon. */
  function AfterColon(t: string): Option<string> {
    var rest := if t != "" && t[0] == '(' then t[1..][IndexOf(t[1..], ')')..] else t;
    var rest := if t != "" && t[0] == '(' && rest != "" then rest[1..] else rest;
    if rest != "" && rest[0] == ':' then Some(rest[1..]) else None
  }

  datatype Match = Match(body: string, rest: string)

  /** `\s*(.+)$`: white space, line ends included, is skipped as far as something remains on a line to be taken. */
  function MatchBody(t: string): Option<Match> {
    var skipped := if t != "" && IsSpace(t[0]) then MatchBody(t[1..]) else None;
    var n := IndexOf(t, '\n');
    if skipped.Some? then skipped
    else if n > 0 then Some(Match(t[..n], t[n..]))
    else None
  }

  /** A match of the whole expression at the start of a line. */
  function MatchUser(t: string): Option<Match> {
    if !StartsWithUser(t) || AfterColon(t[4..]).None? then None else MatchBody(AfterColon(t[4..]).value)
  }

  lemma {:induction false} MatchBodyShrinks(t: string)
    ensures MatchBody(t).Some? ==> |MatchBody(t).value.rest| < |t|
  {
    if t != "" && IsSpace(t[0]) {
      MatchBodyShrinks(t[1..]);
    }
  }

  lemma MatchUserShrinks(t: string)
    ensures MatchUser(t).Some? ==> |MatchUser(t).value.rest| < |t|
  {
    if StartsWithUser(t) && AfterColon(t[4..]).Some? {
      MatchBodyShrinks(AfterColon(t[4..]).value);
    }
  }

  /** `finditer` from a position; `bol` says whether a line begins there. */
  function Scan(t: string, bol: bool): seq<string>
    decreases |t|
  {
    if t == "" then []
    else if bol && MatchUser(t).Some? then
      MatchUserShrinks(t);
      [Strip(MatchUser(t).value.body)] + Scan(MatchUser(t).value.rest, false)
    else Scan(t[1..], t[0] == '\n')
  }

  /** `_iter_user_lines`. */
  function UserLines(text: string): seq<string> {
    Scan(text, true)
  }

  // ---------------------------------------------------------------- what may be printed

  function UserContents(ms: seq<Message>): seq<string> {
    if ms == [] then []
    else (if ms[0].role == UserRole then [Strip(ms[0].content)] else []) + UserContents(ms[1..])
  }

  predicate Free(s: string, c: char) {
    forall i | 0 <= i < |s| :: s[i] != c
  }

  /** If the text reads `user(`, the parenthesis is closed in it. */
  predicate ClosedAt(t: string) {
    StartsWithUser(t) && |t| > 4 && t[4] == '(' ==> IndexOf(t[5..], ')') < |t| - 5
  }

  /** The parentheses of all lines but the first. */
  predicate ClosedLines(s: string) {
    forall i | 1 <= i <= |s| && s[i - 1] == '\n' :: ClosedAt(s[i..])
  }

  predicate NameOnLine(m: Message) {
    m.name.Some? ==> Free(m.name.value, '\n')
  }

  /** The first closing parenthesis after the name is the one printed there. */
  predicate NameCloses(m: Message) {
    m.name.Some? ==> Free(m.name.value, ')')
  }

  /**
   * Names are on one line and those of users without a closing parenthesis; in what others say, a line
   * that reads `user(` is closed within the message.
   */
  predicate Printable(m: Message) {
    && NameOnLine(m)
    && (m.role == UserRole ==> NameCloses(m))
    && (m.role != UserRole ==> ClosedLines(Strip(m.content)))
  }

  predicate OneLine(m: Message) {
    Free(Strip(m.content), '\n')
  }

  predicate IsBlankUser(m: Message) {
    m.role == UserRole && Strip(m.content) == ""
  }

  /** What comes after a message: nothing, or the end of the line and the other messages. */
  function Tail(ms: seq<Message>): string {
    if ms == [] then "" else "\n" + Flatten(ms)
  }

  /** In the text `s`, followed by `b`, a line other than the first starts a match. */
  ghost predicate Intrudes(s: string, b: string) {
    exists i :: IntrudesAt(s, b, i)
  }

  predicate IntrudesAt(s: string, b: string, i: int) {
    1 <= i <= |s| && s[i - 1] == '\n' && MatchUser(s[i..] + b).Some?
  }

  /** No line inside of what others say is taken for a user's. */
  ghost predicate NoneIntrudes(ms: seq<Message>) {
    ms == [] ||
    ((ms[0].role != UserRole ==> !Intrudes(Strip(ms[0].content), Tail(ms[1..]))) && NoneIntrudes(ms[1..]))
  }

  /** No user message but the last message is blank. */
  predicate NoneSwallowed(ms: seq<Message>) {
    forall i | 0 <= i < |ms| - 1 :: !IsBlankUser(ms[i])
  }

  lemma NoneSwallowedCons(ms: seq<Message>)
    requires |ms| > 1
    ensures NoneSwallowed(ms) <==> !IsBlankUser(ms[0]) && NoneSwallowed(ms[1..])
  {
    if !IsBlankUser(ms[0]) && NoneSwallowed(ms[1..]) {
      forall i | 0 <= i < |ms| - 1 ensures !IsBlankUser(ms[i]) {
        assert i > 0 ==> ms[i] == ms[1..][i - 1];
      }
    }
    if NoneSwallowed(ms) {
      assert forall i | 0 <= i < |ms[1..]| - 1 :: ms[1..][i] == ms[i + 1];
    }
  }

  lemma FlattenCons(ms: seq<Message>)
    requires ms != []
    ensures Flatten(ms) == Line(ms[0]) + Tail(ms[1..])
  {
    hide Line;
    var ls := Lines(ms);
    assert ls[1..] == Lines(ms[1..]);
    assert "\n" + Join(ls[1..], "\n") == "\n" + Flatten(ms[1..]);
  }

  // ---------------------------------------------------------------- scanning pieces of the text

  lemma IndexOfFree(a: string, c: char, b: string)
    requires Free(a, c) && (b == "" || b[0] == c)
    ensures IndexOf(a + b, c) == |a|
  {
    assert forall i | 0 <= i < |a| :: (a + b)[i] == a[i];
    assert b != "" ==> (a + b)[|a|] == c;
  }

  lemma IndexBehind(a: string, c: char, b: string)
    requires Free(a, c)
    ensures IndexOf(a + b, c) >= |a|
  {
    assert forall i | 0 <= i < |a| :: (a + b)[i] == a[i];
  }

  /** Within a line in which no match started, scanning moves on to what follows. */
  lemma {:induction false} ScanSkips(a: string, b: string)
    requires Free(a, '\n')
    ensures Scan(a + b, false) == Scan(b, false)
  {
    if a == "" {
      assert a + b == b;
    } else {
      assert (a + b)[1..] == a[1..] + b;
      ScanSkips(a[1..], b);
    }
  }

  lemma ScanLineEnd(t: string, bol: bool)
    ensures Scan("\n" + t, bol) == Scan(t, true)
  {
    assert ("\n" + t)[1..] == t;
  }

  lemma ScanTail(ms: seq<Message>, bol: bool)
    ensures Scan(Tail(ms), bol) == if ms == [] then [] else Scan(Flatten(ms), true)
  {
    if ms != [] {
      ScanLineEnd(Flatten(ms), bol);
    }
  }

  lemma PrintableName(m: Message)
    requires Printable(m)
    ensures NameOnLine(m)
  {
  }

  lemma PrefixFree(m: Message)
    requires NameOnLine(m)
    ensures Free(Prefix(m) + ": ", '\n') && |Prefix(m)| >= 4 && !IsSpace(Prefix(m)[0])
    ensures m.role != UserRole ==> Prefix(m)[0] != 'u' && Prefix(m)[0] != 'U'
  {
    assert Free(RoleName(m.role), '\n');
    assert Prefix(m)[0] == RoleName(m.role)[0];
  }

  /** What somebody else says is scanned as text in which no line has begun yet. */
  lemma OtherLine(m: Message, b: string)
    requires NameOnLine(m) && m.role != UserRole
    ensures Scan(Line(m) + b, true) == Scan(Strip(m.content) + b, false)
  {
    hide Strip, Prefix, NameOnLine;
    PrefixFree(m);
    var p, rest := Prefix(m) + ": ", Strip(m.content) + b;
    var t := p + rest;
    assert Line(m) + b == t;
    assert t[0] == p[0] && t[0] != '\n';
    assert t[1..] == p[1..] + rest;
    ScanSkips(p[1..], rest);
  }

  lemma AfterColonOfName(t: string, n: nat)
    requires t != "" && t[0] == '(' && n == IndexOf(t[1..], ')') && n + 1 < |t|
    ensures AfterColon(t) == if |t| > n + 2 && t[n + 2] == ':' then Some(t[n + 3..]) else None
  {
    assert t[1..][n..] == t[n + 1..];
    assert t[n + 1..][1..] == t[n + 2..];
    assert |t| > n + 2 ==> t[n + 2..][0] == t[n + 2] && t[n + 2..][1..] == t[n + 3..];
  }

  lemma BehindParenthesis(a: string, rest: string)
    requires Free(a, ')') && rest != ""
    ensures AfterColon("(" + a + ")" + rest) == if rest[0] == ':' then Some(rest[1..]) else None
  {
    hide AfterColon;
    var v := "(" + a + ")" + rest;
    assert v[1..] == a + (")" + rest);
    IndexOfFree(a, ')', ")" + rest);
    AfterColonOfName(v, |a|);
    assert v[|a| + 2..] == rest;
    assert v[|a| + 2] == rest[0] && v[|a| + 3..] == rest[1..];
  }

  lemma DropThenAppend(a: string, b: string, n: nat)
    requires n <= |a|
    ensures (a + b)[n..] == a[n..] + b
  {
  }

  lemma StartsWithMore(a: string, b: string)
    requires StartsWithUser(a)
    ensures StartsWithUser(a + b)
  {
  }

  lemma AfterColonAtOnce(rest: string)
    ensures AfterColon(":" + rest) == Some(rest)
  {
    assert (":" + rest)[1..] == rest;
  }

  lemma PrefixBehindRole(m: Message)
    requires m.role == UserRole
    ensures StartsWithUser(Prefix(m)) && |Prefix(m)| >= 4
    ensures Prefix(m)[4..] == if Named(m) then "(" + m.name.value + ")" else ""
  {
  }

  lemma AfterColonOfPrefix(m: Message, rest: string)
    requires Printable(m) && m.role == UserRole
    ensures var t := Prefix(m) + ":" + rest; StartsWithUser(t) && AfterColon(t[4..]) == Some(rest)
  {
    hide AfterColon, Prefix, StartsWithUser;
    PrefixBehindRole(m);
    var t := Prefix(m) + ":" + rest;
    assert t == Prefix(m) + (":" + rest);
    StartsWithMore(Prefix(m), ":" + rest);
    DropThenAppend(Prefix(m), ":" + rest, 4);
    if Named(m) {
      BehindParenthesis(m.name.value, ":" + rest);
    } else {
      AfterColonAtOnce(rest);
      assert t[4..] == ":" + rest;
    }
  }

  /** Text that does not begin with white space is taken up to the end of its line. */
  lemma BodyOfText(t: string)
    requires t != "" && !IsSpace(t[0])
    ensures var n := IndexOf(t, '\n'); n > 0 && MatchBody(t) == Some(Match(t[..n], t[n..]))
  {
  }

  lemma BodyAfterSpace(c: char, t: string)
    requires IsSpace(c) && MatchBody(t).Some?
    ensures MatchBody([c] + t) == MatchBody(t)
  {
    assert ([c] + t)[1..] == t;
  }

  predicate IsTail(b: string) {
    b == "" || b[0] == '\n'
  }

  lemma BodyOfLine(s: string, b: string)
    requires s != "" && !IsSpace(s[0]) && Free(s, '\n') && IsTail(b)
    ensures MatchBody(s + b) == Some(Match(s, b))
  {
    assert (s + b)[0] == s[0];
    IndexOfFree(s, '\n', b);
    BodyOfText(s + b);
    assert (s + b)[..|s|] == s && (s + b)[|s|..] == b;
  }

  /** A user's line with content yields exactly that content. */
  lemma UserLine(m: Message, b: string)
    requires Printable(m) && m.role == UserRole && OneLine(m) && Strip(m.content) != "" && IsTail(b)
    ensures Scan(Line(m) + b, true) == [Strip(m.content)] + Scan(b, false)
  {
    var s := Strip(m.content);
    var t := Line(m) + b;
    StripIsStripped(m.content);
    StripIsStripped(s);
    assert t == Prefix(m) + ":" + ([' '] + (s + b));
    AfterColonOfPrefix(m, [' '] + (s + b));
    BodyOfLine(s, b);
    BodyAfterSpace(' ', s + b);
    assert MatchUser(t) == Some(Match(s, b));
  }

  /** A user's line without content at the very end yields the empty string. */
  lemma LastBlank(m: Message)
    requires Printable(m) && IsBlankUser(m)
    ensures Scan(Line(m), true) == [""]
  {
    assert Line(m) == Prefix(m) + ":" + " ";
    AfterColonOfPrefix(m, " ");
    assert " "[1..] == "";
    assert MatchBody("") == None;
    assert " "[..1] == " " && " "[1..] == "";
    assert MatchBody(" ") == Some(Match(" ", ""));
    assert StripLeft(" ") == StripLeft("");
    assert Strip(" ") == "";
  }

  lemma {:induction false} NotBlank(s: string)
    requires s != "" && !IsSpace(s[0])
    ensures Strip(s) != ""
  {
    assert StripLeft(s) == s;
    RightNotBlank(s);
  }

  lemma {:induction false} RightNotBlank(s: string)
    requires s != "" && !IsSpace(s[0])
    ensures StripRight(s) != ""
  {
    if IsSpace(s[|s| - 1]) {
      RightNotBlank(s[..|s| - 1]);
    }
  }

  // ---------------------------------------------------------------- a line that is swallowed

  /** The first line of a printed message, and what follows it in the message. */
  function Head(m: Message): string {
    Line(m)[..IndexOf(Line(m), '\n')]
  }

  function Below(m: Message): string {
    Line(m)[IndexOf(Line(m), '\n')..]
  }

  lemma FirstLineEnd(a: string, b: string)
    requires IsTail(b)
    ensures IndexOf(a + b, '\n') == IndexOf(a, '\n')
  {
    var n := IndexOf(a, '\n');
    IndexOfFree(a[..n], '\n', a[n..] + b);
    assert a + b == a[..n] + (a[n..] + b);
  }

  /** After white space with a line end in it, the match takes the first line of the next message. */
  lemma TakesHead(ms: seq<Message>)
    requires ms != [] && NameOnLine(ms[0])
    ensures MatchBody("\n" + Flatten(ms)) == Some(Match(Head(ms[0]), Below(ms[0]) + Tail(ms[1..])))
    ensures |Head(ms[0])| >= 4 && !IsSpace(Head(ms[0])[0]) && Free(Head(ms[0]), '\n') && Strip(Head(ms[0])) != ""
  {
    hide Strip, NameOnLine, MatchBody, Flatten, Lines, Prefix;
    var l, b := Line(ms[0]), Tail(ms[1..]);
    PrefixFree(ms[0]);
    FlattenCons(ms);
    assert l[0] == Prefix(ms[0])[0];
    BodyOfText(l + b);
    FirstLineEnd(l, b);
    var n := IndexOf(l, '\n');
    IndexBehind(Prefix(ms[0]) + ": ", '\n', Strip(ms[0].content));
    assert (l + b)[..n] == l[..n] && (l + b)[n..] == l[n..] + b;
    BodyAfterSpace('\n', l + b);
    NotBlank(Head(ms[0]));
  }

  /** A blank user message before another message yields the first line of that one, whoever wrote it. */
  lemma BlankSwallows(m: Message, ms: seq<Message>)
    requires Printable(m) && IsBlankUser(m) && ms != [] && NameOnLine(ms[0])
    ensures Scan(Line(m) + Tail(ms), true) == [Strip(Head(ms[0]))] + Scan(Below(ms[0]) + Tail(ms[1..]), false)
    ensures Strip(Head(ms[0])) != ""
  {
    hide Strip, Printable, NameOnLine, MatchBody, AfterColon, Flatten, Head, Below;
    var t := Line(m) + Tail(ms);
    TakesHead(ms);
    assert t == Prefix(m) + ":" + ([' '] + ("\n" + Flatten(ms)));
    AfterColonOfPrefix(m, [' '] + ("\n" + Flatten(ms)));
    BodyAfterSpace(' ', "\n" + Flatten(ms));
  }

  // ---------------------------------------------------------------- how much is extracted

  /** The characters extracted, and one more for each line. */
  function Weight(xs: seq<string>): nat {
    if xs == [] then 0 else |xs[0]| + 1 + Weight(xs[1..])
  }

  lemma WeightCons(x: string, xs: seq<string>)
    ensures Weight([x] + xs) == |x| + 1 + Weight(xs)
  {
    assert ([x] + xs)[1..] == xs;
  }

  /** Text that ends a stripped content. */
  predicate EndsInText(c: string) {
    c == "" || !IsSpace(c[|c| - 1])
  }

  /** Nothing is swallowed and nobody else is taken for the user. */
  ghost predicate Faithful(ms: seq<Message>) {
    NoneSwallowed(ms) && NoneIntrudes(ms)
  }

  lemma FaithfulCons(ms: seq<Message>)
    requires ms != []
    ensures Faithful(ms) <==>
      && Faithful(ms[1..])
      && (IsBlankUser(ms[0]) ==> |ms| == 1)
      && (ms[0].role != UserRole ==> !Intrudes(Strip(ms[0].content), Tail(ms[1..])))
  {
    hide IsBlankUser, Intrudes, Strip;
    if |ms| > 1 {
      NoneSwallowedCons(ms);
    }
  }

  lemma HeadOfUser(m: Message)
    requires Printable(m) && m.role == UserRole && OneLine(m)
    ensures Below(m) == "" && |Strip(Head(m))| >= |Strip(m.content)| + 5
  {
    PrefixFree(m);
    var l, s := Line(m), Strip(m.content);
    assert Free(l, '\n');
    IndexOfFree(l, '\n', "");
    assert l + "" == l && l[..|l|] == l;
    assert l[0] == Prefix(m)[0];
    StripIsStripped(m.content);
    if s == "" {
      assert l == Prefix(m) + ":" + " ";
      StripsOneSpace(Prefix(m) + ":");
    } else {
      assert l[|l| - 1] == s[|s| - 1];
      StripIsStripped(l);
    }
  }

  lemma StripsOneSpace(s: string)
    requires s != "" && !IsSpace(s[0]) && !IsSpace(s[|s| - 1])
    ensures Strip(s + " ") == s
  {
    var t := s + " ";
    assert t[|t| - 1] == ' ' && t[..|t| - 1] == s && t[0] == s[0];
    assert StripLeft(t) == t && StripRight(s) == s;
    assert StripRight(t) == StripRight(s);
  }

  lemma BelowOfOther(m: Message)
    requires Printable(m) && m.role != UserRole
    ensures var c := Below(m); EndsInText(c) && ClosedLines(c)
  {
    hide Strip, Prefix, IndexOf, Printable, ClosedLines, EndsInText;
    PrintableName(m);
    PrefixFree(m);
    ContentText(m);
    var p, s, n := Prefix(m) + ": ", Strip(m.content), IndexOf(Line(m), '\n');
    assert Line(m) == p + s;
    IndexBehind(p, '\n', s);
    if n < |Line(m)| {
      DropPrefix(p, s, n);
      ClosedSuffix(s, n - |p|);
      TextSuffix(s, n - |p|);
    } else {
      NothingOpen(Below(m));
    }
  }

  lemma DropPrefix(p: string, s: string, n: nat)
    requires |p| <= n <= |p + s|
    ensures (p + s)[n..] == s[n - |p|..]
  {
  }

  lemma TextSuffix(s: string, n: nat)
    requires n <= |s| && EndsInText(s)
    ensures EndsInText(s[n..])
  {
  }

  lemma ClosedSuffix(s: string, n: nat)
    requires n <= |s| && ClosedLines(s)
    ensures ClosedLines(s[n..])
  {
    forall i | 1 <= i <= |s[n..]| && s[n..][i - 1] == '\n' ensures ClosedAt(s[n..][i..]) {
      assert s[n..][i - 1] == s[n + i - 1];
      assert s[n..][i..] == s[n + i..];
    }
  }

  lemma NothingOpen(c: string)
    requires c == ""
    ensures EndsInText(c) && ClosedLines(c)
  {
  }

  /** A match that starts in the text `c` has its colon there. */
  lemma ColonInside(c: string, b: string) returns (x: string)
    requires IsTail(b) && ClosedAt(c) && StartsWithUser(c + b) && AfterColon((c + b)[4..]).Some?
    ensures |x| < |c| && x == c[|c| - |x|..] && AfterColon((c + b)[4..]) == Some(x + b)
  {
    assert StartsWithUser(c) && |c| > 4 by {
      UserInside(c, b);
    }
    var u := c[4..];
    assert (c + b)[4..] == u + b;
    hide StartsWithUser;
    if c[4] == '(' {
      x := ColonBehindName(u, b);
    } else {
      x := u[1..];
      assert (u + b)[1..] == x + b;
    }
  }

  lemma UserInside(c: string, b: string)
    requires IsTail(b) && StartsWithUser(c + b) && AfterColon((c + b)[4..]).Some?
    ensures StartsWithUser(c) && |c| > 4
  {
    hide AfterColon;
    var t := c + b;
    assert |c| < |t| ==> t[|c|] == '\n';
    assert |c| >= 4;
    NoColonInTail(t[4..]);
  }

  lemma NoColonInTail(t: string)
    ensures AfterColon(t).Some? ==> t != "" && t[0] != '\n'
  {
  }

  lemma ColonBehindName(u: string, b: string) returns (x: string)
    requires IsTail(b) && u != "" && u[0] == '(' && IndexOf(u[1..], ')') < |u| - 1 && AfterColon(u + b).Some?
    ensures |x| < |u| && x == u[|u| - |x|..] && AfterColon(u + b) == Some(x + b)
  {
    hide AfterColon, IndexOf;
    var v := u[1..];
    var n := IndexOf(v, ')');
    IndexOfFree(v[..n], ')', v[n..] + b);
    assert v + b == v[..n] + (v[n..] + b);
    DropThenAppend(u, b, 1);
    AfterColonOfName(u + b, n);
    assert |u| > n + 2;
    x := u[n + 3..];
    DropThenAppend(u, b, n + 3);
  }

  /** Text that ends in text keeps the match inside of it. */
  lemma {:induction false} BodyInside(x: string, b: string) returns (r: string)
    requires x != "" && EndsInText(x) && IsTail(b)
    ensures MatchBody(x + b).Some? && MatchBody(x + b).value.rest == r + b
    ensures |r| < |x| && r == x[|x| - |r|..]
  {
    hide MatchBody;
    if IsSpace(x[0]) {
      r := BodyInside(x[1..], b);
      assert x + b == [x[0]] + (x[1..] + b);
      BodyAfterSpace(x[0], x[1..] + b);
    } else {
      r := BodyHere(x, b);
    }
  }

  lemma BodyHere(x: string, b: string) returns (r: string)
    requires x != "" && !IsSpace(x[0]) && IsTail(b)
    ensures MatchBody(x + b).Some? && MatchBody(x + b).value.rest == r + b
    ensures |r| < |x| && r == x[|x| - |r|..]
  {
    hide MatchBody;
    assert (x + b)[0] == x[0];
    BodyOfText(x + b);
    FirstLineEnd(x, b);
    var n := IndexOf(x, '\n');
    r := x[n..];
    assert (x + b)[n..] == r + b;
  }

  lemma TailIsTail(ms: seq<Message>)
    ensures IsTail(Tail(ms))
  {
  }

  /** A match in the text of somebody else extracts more than it should. */
  lemma {:induction false} MatchAddsWeight(c: string, ms: seq<Message>)
    requires (forall m | m in ms :: Printable(m) && (m.role == UserRole ==> OneLine(m)))
    requires EndsInText(c) && ClosedLines(c) && ClosedAt(c) && MatchUser(c + Tail(ms)).Some?
    ensures Weight(Scan(c + Tail(ms), true)) > Weight(UserContents(ms))
    decreases |ms|, |c|, 0
  {
    hide Strip, ClosedLines, ClosedAt, AfterColon, MatchBody, Flatten, Head, Below, Printable, OneLine;
    var b := Tail(ms);
    TailIsTail(ms);
    var x := ColonInside(c, b);
    assert c + b != "";
    var found := MatchUser(c + b).value;
    WeightCons(Strip(found.body), Scan(found.rest, false));
    if x != "" {
      var r := BodyInside(x, b);
      assert r == c[|c| - |r|..];
      ClosedSuffix(c, |c| - |r|);
      ScanWeighs(r, false, ms);
    } else {
      assert x + b == b;
      MatchNeedsText(ms);
      PrintableName(ms[0]);
      TakesHead(ms);
      HeadWeighs(ms);
    }
  }

  lemma MatchNeedsText(ms: seq<Message>)
    requires MatchBody(Tail(ms)).Some?
    ensures ms != []
  {
  }

  /** Taking the first line of a message and scanning on extracts more than the messages hold. */
  lemma {:induction false} HeadWeighs(ms: seq<Message>)
    requires ms != [] && (forall m | m in ms :: Printable(m) && (m.role == UserRole ==> OneLine(m)))
    ensures var xs := [Strip(Head(ms[0]))] + Scan(Below(ms[0]) + Tail(ms[1..]), false);
      Weight(xs) > Weight(UserContents(ms)) + 1
    decreases |ms|, 0, 0
  {
    hide Strip, ClosedLines, Flatten, Head, Below, Printable, OneLine;
    var m, rest := ms[0], ms[1..];
    WeightCons(Strip(Head(m)), Scan(Below(m) + Tail(rest), false));
    PrintableName(m);
    TakesHead(ms);
    if m.role == UserRole {
      HeadOfUser(m);
      WeightCons(Strip(m.content), UserContents(rest));
      NothingOpen(Below(m));
      ScanWeighs(Below(m), false, rest);
    } else {
      BelowOfOther(m);
      ScanWeighs(Below(m), false, rest);
      assert UserContents(ms) == UserContents(rest);
    }
  }

  /** Scanning the rest of a message and all that follow extracts at least what the users say in them. */
  lemma {:induction false} ScanWeighs(c: string, bol: bool, ms: seq<Message>)
    requires (forall m | m in ms :: Printable(m) && (m.role == UserRole ==> OneLine(m)))
    requires EndsInText(c) && ClosedLines(c) && (bol ==> ClosedAt(c))
    ensures Weight(Scan(c + Tail(ms), bol)) >= Weight(UserContents(ms))
    ensures !Faithful(ms) || Intrudes(c, Tail(ms)) || (bol && MatchUser(c + Tail(ms)).Some?) ==>
      Weight(Scan(c + Tail(ms), bol)) > Weight(UserContents(ms))
    decreases |ms|, |c|, 1
  {
    hide Strip, ClosedAt, MatchUser, Flatten, Printable, OneLine, Faithful;
    var b := Tail(ms);
    if c == "" {
      assert c + b == b;
      ScanTail(ms, bol);
      NoMatchAtTail(ms);
      FlattenWeighs(ms);
    } else if bol && MatchUser(c + b).Some? {
      MatchAddsWeight(c, ms);
    } else {
      assert (c + b)[1..] == c[1..] + b && (c + b)[0] == c[0];
      ClosedSuffix(c, 1);
      assert c[0] == '\n' ==> ClosedAt(c[1..]);
      ScanWeighs(c[1..], c[0] == '\n', ms);
      IntrudesCons(c, b);
    }
  }

  /** A line that starts a match starts it in the rest of the text, or is the first line of the rest. */
  lemma IntrudesCons(c: string, b: string)
    requires c != ""
    ensures Intrudes(c, b) <==> Intrudes(c[1..], b) || (c[0] == '\n' && MatchUser(c[1..] + b).Some?)
  {
    hide MatchUser;
    if i :| IntrudesAt(c, b, i) {
      if i > 1 {
        assert c[1..][i - 2] == c[i - 1] && c[1..][i - 1..] == c[i..];
        assert IntrudesAt(c[1..], b, i - 1);
      }
    }
    if i :| IntrudesAt(c[1..], b, i) {
      assert c[i] == c[1..][i - 1] && c[i + 1..] == c[1..][i..];
      assert IntrudesAt(c, b, i + 1);
    }
    if c[0] == '\n' && MatchUser(c[1..] + b).Some? {
      assert IntrudesAt(c, b, 1);
    }
  }

  lemma NoMatchAtTail(ms: seq<Message>)
    ensures MatchUser(Tail(ms)).None?
  {
  }

  /** A printed turn yields at least what its users say, and more if it is not faithful. */
  lemma {:induction false} FlattenWeighs(ms: seq<Message>)
    requires (forall m | m in ms :: Printable(m) && (m.role == UserRole ==> OneLine(m)))
    ensures var xs := if ms == [] then [] else Scan(Flatten(ms), true);
      && Weight(xs) >= Weight(UserContents(ms))
      && (!Faithful(ms) ==> Weight(xs) > Weight(UserContents(ms)))
    decreases |ms|, 0, 0
  {
    hide Strip, Flatten, Printable, OneLine, Faithful, Intrudes, MatchUser, Head, Below;
    if ms == [] {
      EmptyFaithful(ms);
      return;
    }
    var m, rest := ms[0], ms[1..];
    FlattenCons(ms);
    FaithfulCons(ms);
    if m.role != UserRole {
      PrintableName(m);
      OtherLine(m, Tail(rest));
      ContentText(m);
      ScanWeighs(Strip(m.content), false, rest);
      assert UserContents(ms) == UserContents(rest);
    } else {
      WeightCons(Strip(m.content), UserContents(rest));
      if Strip(m.content) != "" {
        TailIsTail(rest);
        UserLine(m, Tail(rest));
        ScanTail(rest, false);
        FlattenWeighs(rest);
        WeightCons(Strip(m.content), if rest == [] then [] else Scan(Flatten(rest), true));
      } else if rest == [] {
        assert Line(m) + Tail(rest) == Line(m);
        LastBlank(m);
        EmptyFaithful(rest);
        WeightCons("", []);
        assert [""] + [] == [""];
      } else {
        PrintableName(rest[0]);
        BlankSwallows(m, rest);
        HeadWeighs(rest);
      }
    }
  }

  lemma EmptyFaithful(ms: seq<Message>)
    requires ms == []
    ensures Faithful(ms) && UserContents(ms) == [] && Weight([]) == 0
  {
  }

  lemma ContentText(m: Message)
    requires Printable(m) && m.role != UserRole
    ensures EndsInText(Strip(m.content)) && ClosedLines(Strip(m.content))
  {
    StripIsStripped(m.content);
  }

  // ---------------------------------------------------------------- the round trip

  /** Where no line starts a match, nothing is extracted before the next message. */
  lemma {:induction false} QuietText(c: string, bol: bool, ms: seq<Message>)
    requires !Intrudes(c, Tail(ms)) && (bol ==> MatchUser(c + Tail(ms)).None?)
    ensures Scan(c + Tail(ms), bol) == Scan(Tail(ms), false)
    decreases |c|
  {
    hide MatchUser, Intrudes;
    var b := Tail(ms);
    if c == "" {
      assert c + b == b;
      ScanTail(ms, bol);
      ScanTail(ms, false);
    } else {
      assert (c + b)[1..] == c[1..] + b && (c + b)[0] == c[0];
      IntrudesCons(c, b);
      QuietText(c[1..], c[0] == '\n', ms);
    }
  }

  lemma {:induction false} FaithfulTurn(ms: seq<Message>)
    requires (forall m | m in ms :: Printable(m) && (m.role == UserRole ==> OneLine(m))) && Faithful(ms)
    ensures UserLines(Flatten(ms)) == UserContents(ms)
  {
    hide Strip, Flatten, Printable, OneLine, Faithful, Intrudes, MatchUser;
    if ms == [] {
      NothingToScan(ms);
      return;
    }
    var m, rest := ms[0], ms[1..];
    FlattenCons(ms);
    FaithfulCons(ms);
    FaithfulTurn(rest);
    ScanTail(rest, false);
    EmptyFaithful([]);
    if m.role != UserRole {
      PrintableName(m);
      OtherLine(m, Tail(rest));
      QuietText(Strip(m.content), false, rest);
    } else if Strip(m.content) != "" {
      TailIsTail(rest);
      UserLine(m, Tail(rest));
    } else {
      assert Line(m) + Tail(rest) == Line(m);
      LastBlank(m);
    }
  }

  lemma NothingToScan(ms: seq<Message>)
    requires ms == []
    ensures UserLines(Flatten(ms)) == [] && UserContents(ms) == []
  {
  }

  lemma {:induction false} StripFree(s: string, c: char)
    requires Free(s, c)
    ensures Free(Strip(s), c)
  {
    StripLeftMeaning(s);
    StripRightMeaning(StripLeft(s));
    var l := StripLeft(s);
    forall i | 0 <= i < |l| ensures l[i] != c {
      assert l[i] == s[|s| - |l|..][i];
    }
    assert forall i | 0 <= i < |Strip(s)| :: Strip(s)[i] == l[i];
  }

  lemma {:induction false} BodyFree(t: string)
    requires MatchBody(t).Some?
    ensures Free(MatchBody(t).value.body, '\n')
  {
    if t != "" && IsSpace(t[0]) && MatchBody(t[1..]).Some? {
      BodyFree(t[1..]);
    }
  }

  /** Whatever is extracted is a single line. */
  lemma {:induction false} ScanFree(t: string, bol: bool)
    ensures forall x | x in Scan(t, bol) :: Free(x, '\n')
    decreases |t|
  {
    if t == "" {
    } else if bol && MatchUser(t).Some? {
      MatchUserShrinks(t);
      BodyFree(AfterColon(t[4..]).value);
      StripFree(MatchUser(t).value.body, '\n');
      ScanFree(MatchUser(t).value.rest, false);
    } else {
      ScanFree(t[1..], t[0] == '\n');
    }
  }

  lemma {:induction false} UserContentIn(ms: seq<Message>, m: Message)
    requires m in ms && m.role == UserRole
    ensures Strip(m.content) in UserContents(ms)
  {
    hide Strip;
    if m != ms[0] {
      UserContentIn(ms[1..], m);
    }
  }

  /**
   * Printing and parsing gives back exactly the user's messages, stripped and in order, if and only if
   * each of them is a single line, none but the last message is a blank one, which would take the next
   * line for its own, and nobody else says a line that reads like a user's.
   */
  lemma RoundTripIff(ms: seq<Message>)
    requires forall m | m in ms :: Printable(m)
    ensures UserLines(Flatten(ms)) == UserContents(ms)
      <==> (forall m | m in ms && m.role == UserRole :: OneLine(m)) && NoneSwallowed(ms) && NoneIntrudes(ms)
  {
    hide Strip, Flatten, Printable, Scan, UserContents, NoneSwallowed, NoneIntrudes;
    if forall m | m in ms && m.role == UserRole :: OneLine(m) {
      assert forall m | m in ms :: m.role == UserRole ==> OneLine(m);
      if Faithful(ms) {
        FaithfulTurn(ms);
      }
      FlattenWeighs(ms);
      NothingFlat(ms);
    } else {
      var m :| m in ms && m.role == UserRole && !OneLine(m);
      UserContentIn(ms, m);
      ScanFree(Flatten(ms), true);
    }
  }

  lemma QuoteMatches(t: string)
    requires t == "user: x"
    ensures MatchUser(t).Some?
  {
    hide MatchBody;
    var x := "x";
    assert t == "user" + ":" + " x";
    AfterColonOfPrefix(Message(UserRole, "x", None), " x");
    BodyOfLine(x, "");
    assert x + "" == x && [' '] + x == " x";
    BodyAfterSpace(' ', x);
  }

  /** It happens: an answer that quotes the user on a line of its own. */
  lemma QuoteIntrudes(m: Message)
    requires m.role == Assistant && m.content == "ok\nuser: x" && m.name.None?
    ensures Printable(m) && !NoneIntrudes([m]) && UserLines(Flatten([m])) != UserContents([m])
  {
    hide MatchUser, Scan, Flatten, UserContents, UserLines, Tail;
    var c := m.content;
    StripIsStripped(c);
    assert Strip(c) == c && c[2] == '\n' && c[3] == 'u' && c[4] == 's';
    hide Strip;
    QuoteMatches(c[3..]);
    assert c[3..] + Tail([]) == c[3..] by {
      NoTail();
    }
    assert IntrudesAt(c, Tail([]), 3);
    assert [m][1..] == [];
    assert c[3..][4] == ':' && Free(c[3..], '\n');
    assert forall i | 3 <= i < |c| :: c[i] == c[3..][i - 3];
    forall i | 1 <= i <= |c| && c[i - 1] == '\n' ensures ClosedAt(c[i..]) {
      assert i == 3;
    }
    RoundTripIff([m]);
  }

  lemma NoTail()
    ensures Tail([]) == ""
  {
  }

  lemma NothingFlat(ms: seq<Message>)
    ensures ms == [] ==> UserLines(Flatten(ms)) == []
  {
  }

  /** What somebody else says in one line cannot intrude. */
  lemma {:induction false} OneLiners(ms: seq<Message>)
    requires forall m | m in ms :: OneLine(m)
    ensures NoneIntrudes(ms)
  {
    hide Strip;
    if ms != [] {
      OneLiners(ms[1..]);
      assert OneLine(ms[0]);
    }
  }

  /** The round trip as the extractor relies on it: user messages with content come back as they went in. */
  lemma RoundTrip(ms: seq<Message>)
    requires forall m | m in ms :: Printable(m) && OneLine(m) && !IsBlankUser(m)
    ensures UserLines(Flatten(ms)) == UserContents(ms)
  {
    hide Strip, Flatten, Printable, OneLine, NoneIntrudes, IsBlankUser;
    OneLiners(ms);
    RoundTripIff(ms);
  }

  // ---------------------------------------------------------------- names with a closing parenthesis

  lemma {:induction false} StripLeftKeeps(u: string, v: string)
    requires v != "" && !IsSpace(v[0])
    ensures |StripLeft(u + v)| >= |v|
  {
    if u == "" {
      assert u + v == v;
    } else {
      assert (u + v)[1..] == u[1..] + v;
      StripLeftKeeps(u[1..], v);
    }
  }

  lemma {:induction false} BodyOfPadded(y: string, b: string)
    requires StripLeft(y) != "" && Free(y, '\n') && IsTail(b)
    ensures MatchBody(y + b) == Some(Match(StripLeft(y), b))
  {
    hide MatchBody;
    if IsSpace(y[0]) {
      BodyOfPadded(y[1..], b);
      assert y + b == [y[0]] + (y[1..] + b);
      BodyAfterSpace(y[0], y[1..] + b);
    } else {
      BodyOfLine(y, b);
    }
  }

  /** What follows a name in a line is not lost when the line is stripped. */
  lemma LongerBody(u: string, s: string)
    requires s == "" || !IsSpace(s[|s| - 1])
    ensures var w := StripLeft(u + "): " + s); w != "" && |Strip(w)| > |s|
  {
    var v := "): " + s;
    assert u + "): " + s == u + v;
    StripLeftKeeps(u, v);
    var w := StripLeft(u + v);
    StripLeftMeaning(u + v);
    if s == "" {
      NotBlank(w);
    } else {
      assert w[|w| - 1] == s[|s| - 1];
      StripIsStripped(w);
    }
  }

  /** The header is read up to the first parenthesis of the name. */
  lemma AfterBrokenName(m: Message, b: string, n: nat)
    requires m.role == UserRole && m.name.Some? && n == IndexOf(m.name.value, ')') && n < |m.name.value|
    ensures var t, u := Line(m) + b, m.name.value[n + 1..];
      StartsWithUser(t) && AfterColon(t[4..])
      == if u != "" && u[0] == ':' then Some(u[1..] + "): " + Strip(m.content) + b) else None
  {
    hide Strip, AfterColon, IndexOf, Prefix;
    var s, name := Strip(m.content), m.name.value;
    var a, u := name[..n], name[n + 1..];
    var rest := u + ("): " + s + b);
    PrefixBehindRole(m);
    BehindParenthesis(a, rest);
    assert name == a + ")" + u;
    assert (Line(m) + b)[4..] == Prefix(m)[4..] + ": " + s + b;
    assert (Line(m) + b)[4..] == "(" + a + ")" + rest;
    RestOfName(u, s, b);
  }

  lemma RestOfName(u: string, s: string, b: string)
    ensures var rest := u + ("): " + s + b);
      if u == "" then rest[0] == ')' else rest[0] == u[0] && rest[1..] == u[1..] + "): " + s + b
  {
  }

  /** Such a line yields nothing, or more than was said. */
  lemma BrokenName(m: Message, b: string) returns (xs: seq<string>)
    requires m.role == UserRole && NameOnLine(m) && !NameCloses(m) && OneLine(m) && IsTail(b)
    ensures Scan(Line(m) + b, true) == xs + Scan(b, false)
    ensures xs == [] || (|xs| == 1 && |xs[0]| > |Strip(m.content)|)
  {
    hide Strip, AfterColon, MatchBody, IndexOf;
    var s, name := Strip(m.content), m.name.value;
    var n := IndexOf(name, ')');
    var t, u := Line(m) + b, name[n + 1..];
    PrefixFree(m);
    assert Free(Line(m), '\n');
    AfterBrokenName(m, b, n);
    if u != "" && u[0] == ':' {
      var y := u[1..] + "): " + s;
      StripIsStripped(m.content);
      LongerBody(u[1..], s);
      BodyOfPadded(y, b);
      xs := [Strip(StripLeft(y))];
    } else {
      xs := [];
      assert t[0] == 'u' && t[1..] == Line(m)[1..] + b;
      ScanSkips(Line(m)[1..], b);
      assert [] + Scan(b, false) == Scan(b, false);
    }
  }

  /** What is extracted from a turn, or from no messages. */
  function Extracted(ms: seq<Message>): seq<string> {
    Scan(Tail(ms), false)
  }

  lemma ExtractedOfTurn(ms: seq<Message>)
    ensures UserLines(Flatten(ms)) == Extracted(ms)
    ensures ms != [] ==> Extracted(ms) == Scan(Line(ms[0]) + Tail(ms[1..]), true)
  {
    hide Line;
    ScanTail(ms, false);
    if ms != [] {
      FlattenCons(ms);
    }
  }

  predicate SingleLine(m: Message) {
    OneLine(m) && NameOnLine(m)
  }

  ghost predicate NamesClose(ms: seq<Message>) {
    forall m | m in ms && m.role == UserRole :: NameCloses(m)
  }

  lemma SingleLineNotUser(m: Message, ms: seq<Message>)
    requires SingleLine(m) && m.role != UserRole
    ensures Scan(Line(m) + Tail(ms), true) == Extracted(ms)
  {
    hide Strip, Line, Tail;
    OtherLine(m, Tail(ms));
    ScanSkips(Strip(m.content), Tail(ms));
  }

  lemma SingleLineHead(m: Message)
    requires SingleLine(m)
    ensures Below(m) == ""
  {
    hide Strip;
    PrefixFree(m);
    assert Free(Line(m), '\n') && Line(m) + "" == Line(m);
    IndexOfFree(Line(m), '\n', "");
  }

  /** The line after a blank one is taken with it. */
  lemma SingleLineSwallowed(m: Message, ms: seq<Message>)
    requires SingleLine(m) && NameCloses(m) && IsBlankUser(m) && ms != [] && SingleLine(ms[0])
    ensures exists x :: x != "" && Scan(Line(m) + Tail(ms), true) == [x] + Extracted(ms[1..])
  {
    hide Strip, Line, Tail, Head, Below, Scan;
    BlankSwallows(m, ms);
    SingleLineHead(ms[0]);
    assert "" + Tail(ms[1..]) == Tail(ms[1..]);
  }

  lemma UserContentsCons(ms: seq<Message>)
    requires ms != []
    ensures UserContents(ms)
         == if ms[0].role == UserRole then [Strip(ms[0].content)] + UserContents(ms[1..]) else UserContents(ms[1..])
  {
  }

  lemma ConditionsCons(ms: seq<Message>)
    requires ms != []
    ensures NoneSwallowed(ms) <==> (IsBlankUser(ms[0]) ==> |ms| == 1) && NoneSwallowed(ms[1..])
    ensures NamesClose(ms) <==> (ms[0].role == UserRole ==> NameCloses(ms[0])) && NamesClose(ms[1..])
  {
    hide IsBlankUser, NameCloses;
    if |ms| > 1 {
      NoneSwallowedCons(ms);
    }
    assert forall m :: m in ms <==> m == ms[0] || m in ms[1..];
  }

  /** No user yields two lines, so what one loses none of the others makes up for. */
  lemma {:induction false} SingleLinesYield(ms: seq<Message>)
    requires forall m | m in ms :: SingleLine(m)
    ensures |Extracted(ms)| <= |UserContents(ms)|
    ensures Extracted(ms) == UserContents(ms) <==> NoneSwallowed(ms) && NamesClose(ms)
    decreases |ms|
  {
    hide Strip, Line, Tail, Scan, SingleLine, NameCloses, IsBlankUser, Extracted, UserContents, NoneSwallowed,
         NamesClose;
    ExtractedOfTurn(ms);
    if ms == [] {
      NoMessages(ms);
      return;
    }
    var m, rest := ms[0], ms[1..];
    UserContentsCons(ms);
    ConditionsCons(ms);
    SingleLinesYield(rest);
    if m.role != UserRole {
      SingleLineNotUser(m, rest);
      OthersNotBlank(m);
    } else if IsBlankUser(m) && NameCloses(m) && rest != [] {
      SingleLineSwallowed(m, rest);
      SingleLinesYield(rest[1..]);
      UserContentsCons(rest);
      BlankContent(m);
    } else {
      var xs := UserYields(m, rest);
      OneMoreYield(xs, Extracted(rest), Strip(m.content), UserContents(rest));
    }
  }

  lemma OneMoreYield(xs: seq<string>, e: seq<string>, s: string, u: seq<string>)
    requires |xs| <= 1 && |e| <= |u|
    ensures |xs + e| <= |[s] + u|
    ensures xs + e == [s] + u <==> xs == [s] && e == u
  {
    if xs + e == [s] + u {
      assert |xs| == 1 && (xs + e)[0] == xs[0] && (xs + e)[1..] == e && ([s] + u)[1..] == u;
    }
  }

  lemma OthersNotBlank(m: Message)
    ensures IsBlankUser(m) <==> m.role == UserRole && Strip(m.content) == ""
  {
  }

  lemma BlankContent(m: Message)
    requires IsBlankUser(m)
    ensures Strip(m.content) == ""
  {
  }

  lemma NoMessages(ms: seq<Message>)
    requires ms == []
    ensures Extracted(ms) == [] && UserContents(ms) == [] && NoneSwallowed(ms) && NamesClose(ms)
  {
  }

  /** A line of the user that swallows nothing yields what was said exactly when the name closes. */
  lemma UserYields(m: Message, rest: seq<Message>) returns (xs: seq<string>)
    requires SingleLine(m) && m.role == UserRole && (IsBlankUser(m) && NameCloses(m) ==> rest == [])
    ensures Scan(Line(m) + Tail(rest), true) == xs + Extracted(rest) && |xs| <= 1
    ensures xs == [Strip(m.content)] <==> NameCloses(m)
  {
    hide Strip, Line, Tail, Scan;
    TailIsTail(rest);
    if !NameCloses(m) {
      xs := BrokenName(m, Tail(rest));
    } else if Strip(m.content) != "" {
      xs := [Strip(m.content)];
      UserLine(m, Tail(rest));
    } else {
      xs := [""];
      LastBlank(m);
      NoMessages(rest);
      NoTail();
      assert Line(m) + "" == Line(m);
    }
  }

  /**
   * For messages that are single lines, with names on one line, nothing else is asked: the round trip
   * succeeds if and only if no blank user message swallows a line and no name of a user has a closing
   * parenthesis in it.
   */
  lemma SingleLinesIff(ms: seq<Message>)
    requires forall m | m in ms :: OneLine(m) && NameOnLine(m)
    ensures UserLines(Flatten(ms)) == UserContents(ms) <==> NoneSwallowed(ms) && NamesClose(ms)
  {
    hide UserLines, Extracted, UserContents, NoneSwallowed, NamesClose;
    ExtractedOfTurn(ms);
    SingleLinesYield(ms);
  }

  /** With longer messages one failure can make up for another: a line is lost to a name and quoted by an answer. */
  lemma LostAndQuoted(u: Message, m: Message)
    requires u == Message(UserRole, "x", Some("a)"))
    requires m == Message(Assistant, "k\nuser: x", None)
    ensures !NameCloses(u) && !NoneIntrudes([u, m])
    ensures UserLines(Flatten([u, m])) == UserContents([u, m]) == ["x"]
  {
    hide Strip, Line, Tail, Scan, UserContents, UserLines, Flatten, NoneIntrudes, IntrudesAt;
    var ms := [u, m];
    assert ms[1..] == [m] && [m][1..] == [];
    LostName(u, [m]);
    Quoted(m);
    ExtractedOfTurn(ms);
    ExtractedOfTurn([m]);
    UserContentsCons(ms);
    UserContentsCons([m]);
    LetterStrip();
    NoMessages([]);
    IntruderIn(u, m);
  }

  lemma LetterStrip()
    ensures Strip("x") == "x" && Strip("k\nuser: x") == "k\nuser: x"
  {
    StripIsStripped("x");
    StripIsStripped("k\nuser: x");
  }

  lemma LostName(u: Message, ms: seq<Message>)
    requires u == Message(UserRole, "x", Some("a)"))
    ensures !NameCloses(u) && Scan(Line(u) + Tail(ms), true) == Extracted(ms)
  {
    hide Strip, Tail, AfterColon, MatchBody;
    var name := "a)";
    assert name[1] == ')' && name[..1] == "a" && Free("a", ')');
    assert name == "a" + ")";
    IndexOfFree("a", ')', ")");
    AfterBrokenName(u, Tail(ms), 1);
    assert name[2..] == "";
    LetterStrip();
    PrefixFree(u);
    assert Line(u) == "user(a)): x";
    var t := Line(u) + Tail(ms);
    assert t[0] == 'u' && t[1..] == Line(u)[1..] + Tail(ms);
    ScanSkips(Line(u)[1..], Tail(ms));
  }

  lemma Quoted(m: Message)
    requires m == Message(Assistant, "k\nuser: x", None)
    ensures Scan(Line(m) + Tail([]), true) == ["x"]
  {
    hide Strip, Scan;
    var x := Message(UserRole, "x", None);
    LetterStrip();
    NoTail();
    OtherLine(m, "");
    assert Line(x) == "user: x" && Line(x) + "" == Line(x);
    assert "k\nuser: x" + "" == "k" + ("\n" + Line(x));
    assert Line(m) + "" == Line(m);
    ScanSkips("k", "\n" + Line(x));
    ScanLineEnd(Line(x), false);
    UserLine(x, "");
    NothingLeft();
  }

  lemma NothingLeft()
    ensures Scan("", false) == []
  {
  }

  lemma IntruderIn(u: Message, m: Message)
    requires m == Message(Assistant, "k\nuser: x", None)
    ensures !NoneIntrudes([u, m])
  {
    hide MatchUser, Strip, Tail;
    var c := m.content;
    LetterStrip();
    NoTail();
    QuoteMatches(c[2..]);
    assert c[2..] + "" == c[2..];
    assert IntrudesAt(c, Tail([]), 2);
    assert [u, m][1..] == [m] && [m][1..] == [];
    assert !NoneIntrudes([m]);
  }

  // ---------------------------------------------------------------- the expression, read as what it matches

  /** `user`, in either case, with the long s for an s. */
  predicate IsUserWord(w: string) {
    && |w| == 4 && w[0] in {'u', 'U'} && w[1] in {'s', 'S', '\U{017f}'} && w[2] in {'e', 'E'} && w[3] in {'r', 'R'}
  }

  /** Nothing, or text without a closing parenthesis in parentheses. */
  predicate IsNamePart(w: string) {
    w == "" || (|w| >= 2 && w[0] == '(' && w[|w| - 1] == ')' && Free(w[1..|w| - 1], ')'))
  }

  predicate AllSpace(w: string) {
    forall i | 0 <= i < |w| :: IsSpace(w[i])
  }

  /** The text is white space, the rest of a line that is not empty, and what follows that line. */
  predicate ReadsBody(t: string, white: string, body: string, rest: string) {
    t == white + body + rest && AllSpace(white) && body != "" && Free(body, '\n') && IsTail(rest)
  }

  /** The text is a match of the expression, part by part, and what follows it. */
  predicate Reads(t: string, word: string, name: string, white: string, body: string, rest: string) {
    && IsUserWord(word) && IsNamePart(name)
    && t == word + name + ":" + (white + body + rest) && ReadsBody(white + body + rest, white, body, rest)
  }

  /** Of all ways to read a body the one with the most white space is taken. */
  lemma {:induction false} BodyIsRead(t: string) returns (white: string)
    requires MatchBody(t).Some?
    ensures ReadsBody(t, white, MatchBody(t).value.body, MatchBody(t).value.rest)
  {
    hide ReadsBody, IsSpace, IndexOf;
    if t != "" && IsSpace(t[0]) && MatchBody(t[1..]).Some? {
      var w := BodyIsRead(t[1..]);
      white := [t[0]] + w;
      ReadsBehindSpace(t[0], t[1..], w, MatchBody(t[1..]).value.body, MatchBody(t[1..]).value.rest);
      assert t == [t[0]] + t[1..];
    } else {
      white := "";
      ReadsAtOnce(t, IndexOf(t, '\n'));
    }
  }

  lemma ReadsBehindSpace(c: char, t: string, white: string, body: string, rest: string)
    requires IsSpace(c) && ReadsBody(t, white, body, rest)
    ensures ReadsBody([c] + t, [c] + white, body, rest)
  {
    hide IsSpace;
    assert [c] + t == [c] + white + body + rest;
  }

  lemma ReadsAtOnce(t: string, n: nat)
    requires n == IndexOf(t, '\n') && n > 0
    ensures ReadsBody(t, "", t[..n], t[n..])
  {
    assert t == "" + t[..n] + t[n..];
  }

  lemma {:induction false} ReadIsBody(t: string, white: string, body: string, rest: string)
    requires ReadsBody(t, white, body, rest)
    ensures MatchBody(t).Some?
    ensures |MatchBody(t).value.body + MatchBody(t).value.rest| <= |body + rest|
  {
    if white != "" {
      assert t[1..] == white[1..] + body + rest;
      ReadIsBody(t[1..], white[1..], body, rest);
    } else {
      assert t == body + rest;
      assert t[0] == body[0] && t[0] != '\n';
      if IsSpace(t[0]) && MatchBody(t[1..]).Some? {
        var w := BodyIsRead(t[1..]);
      }
    }
  }

  lemma WordIsRead(t: string)
    ensures StartsWithUser(t) <==> |t| >= 4 && IsUserWord(t[..4])
  {
  }

  lemma ColonIsRead(t: string) returns (name: string)
    requires AfterColon(t).Some?
    ensures IsNamePart(name) && t == name + ":" + AfterColon(t).value
  {
    hide IndexOf;
    if t[0] == '(' {
      var n := IndexOf(t[1..], ')');
      OpenName(t, n);
      AfterColonOfName(t, n);
      hide AfterColon;
      name := t[..n + 2];
      assert name[1..n + 1] == t[1..][..n];
      assert t == name + ":" + t[n + 3..];
    } else {
      name := "";
      assert t == ":" + t[1..] == "" + ":" + t[1..];
    }
  }

  lemma OpenName(t: string, n: nat)
    requires t != "" && t[0] == '(' && n == IndexOf(t[1..], ')') && AfterColon(t).Some?
    ensures n + 1 < |t|
  {
  }

  lemma ReadIsColon(name: string, rest: string)
    requires IsNamePart(name)
    ensures AfterColon(name + ":" + rest) == Some(rest)
  {
    hide AfterColon;
    if name == "" {
      assert name + ":" + rest == ":" + rest;
      AfterColonAtOnce(rest);
    } else {
      var a := name[1..|name| - 1];
      assert name + ":" + rest == "(" + a + ")" + (":" + rest);
      BehindParenthesis(a, ":" + rest);
    }
  }

  /** A match that is found is a reading of the text. */
  lemma MatchIsRead(t: string) returns (word: string, name: string, white: string)
    requires MatchUser(t).Some?
    ensures Reads(t, word, name, white, MatchUser(t).value.body, MatchUser(t).value.rest)
  {
    hide StartsWithUser, AfterColon, MatchBody;
    WordIsRead(t);
    word := t[..4];
    name := ColonIsRead(t[4..]);
    var u := AfterColon(t[4..]).value;
    white := BodyIsRead(u);
    assert t == word + (name + ":" + u);
  }

  /**
   * Whatever can be read as a match is found to be one, and of all readings the one with the most white space
   * before the body is taken.
   */
  lemma ReadIsMatch(t: string, word: string, name: string, white: string, body: string, rest: string)
    requires Reads(t, word, name, white, body, rest)
    ensures MatchUser(t).Some?
    ensures |MatchUser(t).value.body + MatchUser(t).value.rest| <= |body + rest|
  {
    hide StartsWithUser, AfterColon, MatchBody, ReadsBody;
    var u := white + body + rest;
    WordIsRead(t);
    assert t[..4] == word && t[4..] == name + ":" + u;
    ReadIsColon(name, u);
    ReadIsBody(u, white, body, rest);
  }
}
