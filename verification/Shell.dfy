/**
 Quoting for remote shells (kuiper-agent-lib/src/shell.rs), against a reader of words that follows section 2.2 (Quoting)
 of the Shell Command Language in POSIX.1-2017.
 */
module Shell {
  import opened Common

  // ---------- how a POSIX shell reads words ----------

  /** A character of a word, and whether it was quoted. */
  datatype Ch = Ch(c: char, quoted: bool)

  type Word = seq<Ch>

  function Marked(s: string, quoted: bool): (w: Word)
    ensures |w| == |s| && forall i :: 0 <= i < |s| ==> w[i] == Ch(s[i], quoted)
  {
    seq(|s|, i requires 0 <= i < |s| => Ch(s[i], quoted))
  }

  function Text(w: Word): (s: string)
    ensures |s| == |w|
  {
    seq(|w|, i requires 0 <= i < |w| => w[i].c)
  }

  predicate Blank(c: char) { c in {' ', '\t'} }

  /** Ends a command, begins an operator or an expansion: what follows isn't plain words. */
  predicate Special(c: char) { c in {'\n', '|', '&', ';', '<', '>', '(', ')', '$', '`'} }

  /** The part of `s` before a single quote, if there is one. */
  function UntilQuote(s: string): (r: Option<nat>)
    ensures r.Some? ==> r.value < |s| && s[r.value] == '\'' && '\'' !in s[..r.value]
    ensures r.None? ==> '\'' !in s
  {
    if s == "" then None
    else if s[0] == '\'' then Some(0)
    else
      match UntilQuote(s[1..])
      case None => None
      case Some(i) => assert s[..i + 1] == [s[0]] + s[1..][..i]; Some(i + 1)
  }

  function InWord(word: Option<Word>): Word { if word.Some? then word.value else [] }

  /** Reads on outside quotes; `word` is the word being read, if one has begun. None if these aren't just words. */
  function Read(s: string, word: Option<Word>, words: seq<Word>): Option<seq<Word>>
    decreases |s|, 1
  {
    if s == "" then Some(if word.Some? then words + [word.value] else words)
    else if Blank(s[0]) then Read(s[1..], None, if word.Some? then words + [word.value] else words)
    else if Special(s[0]) || (s[0] == '#' && word.None?) then None
    else if s[0] == '\\' then
      if |s| == 1 then None
      else if s[1] == '\n' then Read(s[2..], word, words)
      else Read(s[2..], Some(InWord(word) + [Ch(s[1], true)]), words)
    else if s[0] == '\'' then
      (match UntilQuote(s[1..])
       case None => None
       case Some(i) => Read(s[i + 2..], Some(InWord(word) + Marked(s[1..][..i], true)), words))
    else if s[0] == '"' then ReadDouble(s[1..], InWord(word), words)
    else Read(s[1..], Some(InWord(word) + [Ch(s[0], false)]), words)
  }

  /** Reads on inside double quotes. */
  function ReadDouble(s: string, word: Word, words: seq<Word>): Option<seq<Word>>
    decreases |s|, 0
  {
    if s == "" || s[0] in {'$', '`'} then None
    else if s[0] == '"' then Read(s[1..], Some(word), words)
    else if s[0] == '\\' && |s| > 1 && s[1] == '\n' then ReadDouble(s[2..], word, words)
    else if s[0] == '\\' && |s| > 1 && s[1] in {'$', '`', '"', '\\'} then
      ReadDouble(s[2..], word + [Ch(s[1], true)], words)
    else ReadDouble(s[1..], word + [Ch(s[0], true)], words)
  }

  function Words(s: string): Option<seq<Word>> { Read(s, None, []) }

  // ---------- escape_posix ----------

  /** `replace('\'', instead)` */
  function ReplaceQuotes(s: string, instead: string): string {
    if s == "" then "" else (if s[0] == '\'' then instead else [s[0]]) + ReplaceQuotes(s[1..], instead)
  }

  function EscapePosix(s: string): string { "'" + ReplaceQuotes(s, "'\\''") + "'" }

  lemma QuoteFound(a: string, b: string)
    requires '\'' !in a
    ensures UntilQuote(a + "'" + b) == Some(|a|)
  {
    var s := a + "'" + b;
    var i := UntilQuote(s).value;
    assert s[|a|] == '\'';
    assert forall j :: 0 <= j < i ==> s[j] == s[..i][j] && s[j] != '\'';
    assert forall j :: 0 <= j < |a| ==> s[j] == a[j] && s[j] != '\'';
  }

  lemma {:induction false} NothingToReplace(a: string, instead: string)
    requires '\'' !in a
    ensures ReplaceQuotes(a, instead) == a
  {
    if a != "" {
      NothingToReplace(a[1..], instead);
    }
  }

  lemma {:induction false} ReplaceConcat(a: string, b: string, instead: string)
    ensures ReplaceQuotes(a + b, instead) == ReplaceQuotes(a, instead) + ReplaceQuotes(b, instead)
  {
    if a == "" {
      assert a + b == b;
    } else {
      assert (a + b)[1..] == a[1..] + b;
      ReplaceConcat(a[1..], b, instead);
    }
  }

  /** A quoted run is read as its characters, quoted. */
  lemma ReadRun(a: string, rest: string, word: Option<Word>, words: seq<Word>)
    requires '\'' !in a
    ensures Read("'" + a + "'" + rest, word, words) == Read(rest, Some(InWord(word) + Marked(a, true)), words)
  {
    var s := "'" + a + "'" + rest;
    assert s[1..] == a + "'" + rest;
    QuoteFound(a, rest);
    assert s[|a| + 2..] == rest && s[1..][..|a|] == a;
  }

  lemma ReadEscapedQuote(rest: string, word: Option<Word>, words: seq<Word>)
    ensures Read("\\'" + rest, word, words) == Read(rest, Some(InWord(word) + [Ch('\'', true)]), words)
  {
    var s := "\\'" + rest;
    assert s[0] == '\\' && s[1] == '\'' && s[2..] == rest;
  }

  /** Wherever it stands, an escaped string adds exactly its own characters, all quoted, to the word being read. */
  lemma {:induction false} EscapedIsRead(s: string, rest: string, word: Option<Word>, words: seq<Word>)
    ensures Read(EscapePosix(s) + rest, word, words) == Read(rest, Some(InWord(word) + Marked(s, true)), words)
    decreases |s|
  {
    match UntilQuote(s)
    case None =>
      NothingToReplace(s, "'\\''");
      assert EscapePosix(s) + rest == "'" + s + "'" + rest;
      ReadRun(s, rest, word, words);
    case Some(i) =>
      var a, b := s[..i], s[i + 1..];
      SplitAtQuote(s, i, rest);
      ReadRun(a, "\\'" + (EscapePosix(b) + rest), word, words);
      var word1 := InWord(word) + Marked(a, true);
      ReadEscapedQuote(EscapePosix(b) + rest, Some(word1), words);
      var word2 := word1 + [Ch('\'', true)];
      EscapedIsRead(b, rest, Some(word2), words);
      MarkedAround(InWord(word), s, i);
  }

  lemma MarkedAround(before: Word, s: string, i: nat)
    requires i < |s|
    ensures before + Marked(s[..i], true) + [Ch(s[i], true)] + Marked(s[i + 1..], true) == before + Marked(s, true)
  {
  }

  lemma SplitAtQuote(s: string, i: nat, rest: string)
    requires i < |s| && s[i] == '\'' && '\'' !in s[..i]
    ensures EscapePosix(s) + rest == "'" + s[..i] + "'" + ("\\'" + (EscapePosix(s[i + 1..]) + rest))
  {
    var a, b := s[..i], s[i + 1..];
    assert s == a + ("'" + b);
    ReplaceConcat(a, "'" + b, "'\\''");
    NothingToReplace(a, "'\\''");
    assert ("'" + b)[1..] == b;
    Regroup("'", "\\'", a, ReplaceQuotes(b, "'\\''"), rest);
  }

  lemma Regroup(x: string, y: string, a: string, r: string, rest: string)
    ensures x + (a + ((x + y + x) + r)) + x + rest == x + a + x + (y + ((x + r + x) + rest))
  {
    assert a + ((x + y + x) + r) == a + x + y + x + r;
    assert x + (a + x + y + x + r) + x + rest == x + a + x + (y + x + r + x + rest);
    assert y + x + r + x + rest == y + ((x + r + x) + rest);
  }

  /** The shell reads the escaped string back as one word, the string itself. */
  lemma EscapePosixRoundTrips(s: string)
    ensures Words(EscapePosix(s)) == Some([Marked(s, true)]) && Text(Marked(s, true)) == s
  {
    EscapedIsRead(s, "", None, []);
    assert EscapePosix(s) + "" == EscapePosix(s);
    assert InWord(None) + Marked(s, true) == Marked(s, true);
    assert [] + [Marked(s, true)] == [Marked(s, true)];
  }

  // ---------- escape_posix_path ----------

  predicate NameStart(c: char) { 'a' <= c <= 'z' || c == '_' }

  predicate NameChar(c: char) { NameStart(c) || '0' <= c <= '9' || c == '-' }

  predicate ValidUsername(name: string) {
    name == "" || (NameStart(name[0]) && forall c :: c in name ==> NameChar(c))
  }

  /** `find('/')` */
  function FindSlash(s: string): (r: Option<nat>)
    ensures r.Some? ==> r.value < |s| && s[r.value] == '/' && '/' !in s[..r.value]
    ensures r.None? ==> '/' !in s
  {
    if s == "" then None
    else if s[0] == '/' then Some(0)
    else
      match FindSlash(s[1..])
      case None => None
      case Some(i) => assert s[..i + 1] == [s[0]] + s[1..][..i]; Some(i + 1)
  }

  function TildePrefix(s: string): string {
    match FindSlash(s)
    case Some(i) => s[..i]
    case None => s
  }

  predicate KeepsTilde(s: string) {
    s != "" && s[0] == '~' && ValidUsername(TildePrefix(s)[1..])
  }

  function EscapePosixPath(s: string): string {
    if s == "" || s[0] != '~' then EscapePosix(s)
    else if !ValidUsername(TildePrefix(s)[1..]) then EscapePosix(s)
    else
      match FindSlash(s)
      case None => TildePrefix(s)
      case Some(i) =>
        var rest := s[i + 1..];
        if rest == "" then TildePrefix(s) + "/" else TildePrefix(s) + "/" + EscapePosix(rest)
  }

  predicate Plain(s: string) { forall c :: c in s ==> NameChar(c) || c in {'~', '/'} }

  lemma {:induction false} PlainIsRead(a: string, rest: string, word: Option<Word>, words: seq<Word>)
    requires Plain(a) && (a == "" ==> word.Some?)
    ensures Read(a + rest, word, words) == Read(rest, Some(InWord(word) + Marked(a, false)), words)
    decreases |a|
  {
    if a == "" {
      assert a + rest == rest && InWord(word) + Marked(a, false) == InWord(word);
    } else {
      assert (a + rest)[1..] == a[1..] + rest && a[0] in a;
      var word1 := InWord(word) + [Ch(a[0], false)];
      PlainIsRead(a[1..], rest, Some(word1), words);
      assert word1 + Marked(a[1..], false) == InWord(word) + Marked(a, false);
    }
  }

  /** What the shell takes for the tilde-prefix of a word, by section 2.6.1 of the same standard: from an unquoted
      tilde to the first unquoted slash, if nothing in it is quoted. */
  function ShellTildePrefix(w: Word): Option<string> {
    if w == [] || w[0] != Ch('~', false) then None else UnquotedUntilSlash(w)
  }

  function UnquotedUntilSlash(w: Word): Option<string> {
    if w == [] || w[0] == Ch('/', false) then Some("")
    else if w[0].quoted then None
    else
      match UnquotedUntilSlash(w[1..])
      case None => None
      case Some(name) => Some([w[0].c] + name)
  }

  lemma {:induction false} PrefixIsSeen(a: string, rest: Word)
    requires '/' !in a && (rest == [] || rest[0] == Ch('/', false))
    ensures UnquotedUntilSlash(Marked(a, false) + rest) == Some(a)
    decreases |a|
  {
    var w := Marked(a, false) + rest;
    if a == "" {
      assert w == rest;
    } else {
      assert a[0] in a && a == [a[0]] + a[1..];
      assert w[1..] == Marked(a[1..], false) + rest;
      PrefixIsSeen(a[1..], rest);
    }
  }

  /** The word for a path: a valid tilde-prefix and the slash after it unquoted, the rest quoted. */
  function PathWord(s: string): Word {
    var kept := if !KeepsTilde(s) then 0 else if |TildePrefix(s)| < |s| then |TildePrefix(s)| + 1 else |s|;
    Marked(s[..kept], false) + Marked(s[kept..], true)
  }

  lemma KeptIsPlain(s: string)
    requires KeepsTilde(s)
    ensures TildePrefix(s) != "" && TildePrefix(s)[0] == '~' && '/' !in TildePrefix(s)
    ensures Plain(TildePrefix(s)) && Plain(TildePrefix(s) + "/")
  {
    var prefix := TildePrefix(s);
    forall c | c in prefix ensures NameChar(c) || c == '~' {
      var i :| 0 <= i < |prefix| && prefix[i] == c;
      if i > 0 { assert prefix[1..][i - 1] == c; }
    }
  }

  /** The shell reads an escaped path as one word with the path's own characters. It expands a tilde-prefix exactly if
      the path begins with one that names a valid user or nobody, and then that one. */
  lemma EscapePosixPathRoundTrips(s: string)
    ensures Words(EscapePosixPath(s)) == Some([PathWord(s)])
    ensures Text(PathWord(s)) == s
    ensures ShellTildePrefix(PathWord(s)) == if KeepsTilde(s) then Some(TildePrefix(s)) else None
  {
    if KeepsTilde(s) {
      KeptIsPlain(s);
      var prefix := TildePrefix(s);
      if FindSlash(s).None? {
        PlainPathIsRead(s);
        assert s[..|s|] == s;
        PrefixIsSeen(s, []);
        assert PathWord(s) == Marked(s, false) && Marked(s, false) + [] == Marked(s, false);
      } else {
        SlashedPathIsRead(s, prefix, s[|prefix| + 1..]);
      }
    } else {
      EscapePosixRoundTrips(s);
      assert s[0..] == s && PathWord(s) == Marked(s, true);
    }
  }

  lemma SlashedPathIsRead(s: string, prefix: string, rest: string)
    requires KeepsTilde(s) && FindSlash(s) == Some(|prefix|) && prefix == TildePrefix(s) && rest == s[|prefix| + 1..]
    ensures Words(EscapePosixPath(s)) == Some([PathWord(s)])
    ensures Text(PathWord(s)) == s && ShellTildePrefix(PathWord(s)) == Some(prefix)
  {
    KeptIsPlain(s);
    SlashedPath(s, prefix, rest);
    SlashedWord(prefix, rest);
    if rest == "" {
      PlainPathIsRead(prefix + "/");
      assert Marked(prefix + "/", false) + Marked("", true) == Marked(prefix + "/", false);
    } else {
      KeptThenQuoted(prefix + "/", rest);
    }
  }

  lemma SlashedPath(s: string, prefix: string, rest: string)
    requires KeepsTilde(s) && FindSlash(s) == Some(|prefix|) && prefix == TildePrefix(s) && rest == s[|prefix| + 1..]
    ensures EscapePosixPath(s) == if rest == "" then prefix + "/" else prefix + "/" + EscapePosix(rest)
    ensures PathWord(s) == Marked(prefix + "/", false) + Marked(rest, true) && Text(PathWord(s)) == s
  {
    assert s[..|prefix| + 1] == prefix + "/";
    var word := Marked(prefix + "/", false) + Marked(rest, true);
    assert PathWord(s) == word;
    TextOfParts(prefix + "/", rest);
    assert s == prefix + "/" + rest;
  }

  lemma TextOfParts(a: string, b: string)
    ensures Text(Marked(a, false) + Marked(b, true)) == a + b
  {
  }

  lemma SlashedWord(prefix: string, rest: string)
    requires prefix != "" && prefix[0] == '~' && '/' !in prefix
    ensures ShellTildePrefix(Marked(prefix + "/", false) + Marked(rest, true)) == Some(prefix)
  {
    var tail := Marked("/", false) + Marked(rest, true);
    assert Marked(prefix + "/", false) + Marked(rest, true) == Marked(prefix, false) + tail;
    PrefixIsSeen(prefix, tail);
  }

  lemma KeptThenQuoted(kept: string, rest: string)
    requires Plain(kept) && kept != ""
    ensures Words(kept + EscapePosix(rest)) == Some([Marked(kept, false) + Marked(rest, true)])
  {
    PlainIsRead(kept, EscapePosix(rest), None, []);
    EscapedIsRead(rest, "", Some(Marked(kept, false)), []);
    assert EscapePosix(rest) + "" == EscapePosix(rest);
    assert InWord(None) + Marked(kept, false) == Marked(kept, false);
    var word := Marked(kept, false) + Marked(rest, true);
    assert [] + [word] == [word];
  }

  lemma PlainPathIsRead(s: string)
    requires Plain(s) && s != ""
    ensures Words(s) == Some([Marked(s, false)])
  {
    PlainIsRead(s, "", None, []);
    assert s + "" == s && InWord(None) + Marked(s, false) == Marked(s, false);
    assert [] + [Marked(s, false)] == [Marked(s, false)];
  }

  // ---------- escape_powershell ----------

  function EscapePowershell(s: string): string { "'" + ReplaceQuotes(s, "''") + "'" }

  /** PowerShell takes these four for single quotes, too. */
  predicate Curly(c: char) { c in {'\U{2018}', '\U{2019}', '\U{201A}', '\U{201B}'} }

  predicate PowershellQuote(c: char) { c == '\'' || Curly(c) }

  /** What follows the opening quote of a PowerShell string: a doubled quote stands for one, a single one ends the
      string. Which of two different quotes is meant is left open. */
  function PowershellRest(s: string, second: bool): Option<string> {
    if s == "" then None
    else if PowershellQuote(s[0]) then
      if |s| == 1 then Some("")
      else if !PowershellQuote(s[1]) then None
      else
        (match PowershellRest(s[2..], second)
         case None => None
         case Some(r) => Some([if second then s[1] else s[0]] + r))
    else
      match PowershellRest(s[1..], second)
      case None => None
      case Some(r) => Some([s[0]] + r)
  }

  function PowershellString(s: string, second: bool): Option<string> {
    if s == "" || !PowershellQuote(s[0]) then None else PowershellRest(s[1..], second)
  }

  lemma {:induction false} RestRoundTrips(s: string, second: bool)
    requires forall c :: c in s ==> !Curly(c)
    ensures PowershellRest(ReplaceQuotes(s, "''") + "'", second) == Some(s)
  {
    if s != "" {
      var rest := ReplaceQuotes(s[1..], "''") + "'";
      var t := ReplaceQuotes(s, "''") + "'";
      RestRoundTrips(s[1..], second);
      assert s == [s[0]] + s[1..];
      if s[0] == '\'' {
        assert t == "''" + rest && t[2..] == rest;
      } else {
        assert s[0] in s;
        assert t == [s[0]] + rest && t[1..] == rest;
      }
    }
  }

  function One(b: bool): nat { if b then 1 else 0 }

  function Straights(s: string): nat { if s == "" then 0 else One(s[0] == '\'') + Straights(s[1..]) }

  function Curlies(s: string): nat { if s == "" then 0 else One(Curly(s[0])) + Curlies(s[1..]) }

  /** Each quote in what is read took two characters. */
  lemma {:induction false} ReadTwoPerQuote(s: string, second: bool)
    ensures PowershellRest(s, second).Some? ==>
              var r := PowershellRest(s, second).value; |s| == |r| + Straights(r) + Curlies(r) + 1
  {
    if s != "" && PowershellRest(s, second).Some? {
      var r := PowershellRest(s, second).value;
      if PowershellQuote(s[0]) {
        if |s| > 1 {
          ReadTwoPerQuote(s[2..], second);
          assert r[1..] == PowershellRest(s[2..], second).value;
        }
      } else {
        ReadTwoPerQuote(s[1..], second);
        assert r[1..] == PowershellRest(s[1..], second).value;
      }
    }
  }

  lemma {:induction false} OnlyStraightsAreDoubled(s: string)
    ensures |ReplaceQuotes(s, "''")| == |s| + Straights(s)
  {
    if s != "" {
      OnlyStraightsAreDoubled(s[1..]);
    }
  }

  lemma {:induction false} NoCurlies(s: string)
    ensures Curlies(s) == 0 <==> forall c :: c in s ==> !Curly(c)
  {
    if s != "" {
      NoCurlies(s[1..]);
      assert forall c :: c in s <==> c == s[0] || c in s[1..];
    }
  }

  /** PowerShell reads the escaped string back as the string exactly if that has no curly single quotes: only straight
      ones are doubled. */
  lemma EscapePowershellRoundTripsIff(s: string, second: bool)
    ensures PowershellString(EscapePowershell(s), second) == Some(s) <==> forall c :: c in s ==> !Curly(c)
  {
    var rest := ReplaceQuotes(s, "''") + "'";
    assert EscapePowershell(s)[1..] == rest;
    NoCurlies(s);
    if forall c :: c in s ==> !Curly(c) {
      RestRoundTrips(s, second);
    }
    ReadTwoPerQuote(rest, second);
    OnlyStraightsAreDoubled(s);
  }

  /** Such a quote ends the string early. */
  lemma CurlyQuoteEndsTheString(second: bool)
    ensures PowershellString(EscapePowershell("a\U{2018}b"), second) == None
  {
    var s := "a\U{2018}b";
    assert s[1..] == "\U{2018}b" && s[1..][1..] == "b" && s[1..][1..][1..] == "";
    assert EscapePowershell(s) == "'a\U{2018}b'";
    var rest := "a\U{2018}b'";
    assert EscapePowershell(s)[1..] == rest;
    assert rest[1..] == "\U{2018}b'" && PowershellQuote(rest[1..][0]) && !PowershellQuote(rest[1..][1]);
    assert PowershellRest(rest[1..], second) == None;
    assert PowershellRest(rest, second) == None;
  }
}
