/** The URL check of HW4/scraper.py: `validate_wikipedia_url`, a `re.match` of the pattern
    `^https?://(en\.)?wikipedia\.org/wiki/.+$`, and the prompt loop `get_wikipedia_url` that
    keeps reading until a line passes it. */
module Scraper {
  import opened Json

  const WikiPath: string := "wikipedia.org/wiki/"

  /** The length of the run of non-newline characters that starts `s`: how far the greedy
      `.+` reaches, since `.` matches anything but a newline. */
  function NonNewlineRun(s: string): (n: nat)
    ensures n <= |s|
    ensures forall i | 0 <= i < n :: s[i] != '\n'
    ensures n < |s| ==> s[n] == '\n'
  {
    if s == [] || s[0] == '\n' then 0 else 1 + NonNewlineRun(s[1..])
  }

  /** The pattern's tail `.+$` at the start of `s`: a non-empty greedy run of non-newlines,
      then `$`, which matches at the very end or just before a final newline. Backing the
      run off cannot help, because `$` never matches before a non-newline. */
  predicate ArticleMatches(s: string) {
    var n := NonNewlineRun(s);
    n >= 1 && (n == |s| || (n == |s| - 1 && s[n] == '\n'))
  }

  /** The article part the pattern describes: one or more characters, none a newline, with one
      optional newline after them. */
  predicate Article(body: string) {
    ('\n' !in body && body != []) ||
    (|body| >= 2 && body[|body| - 1] == '\n' && '\n' !in body[..|body| - 1])
  }

  /** The tail matcher accepts exactly the article parts. */
  lemma ArticleMatchesIsArticle(s: string)
    ensures ArticleMatches(s) <==> Article(s)
  {
    var n := NonNewlineRun(s);
    if Article(s) && '\n' in s {
      assert s[..|s| - 1][0] == s[0];
    }
  }

  /** One literal of the pattern: the rest of `s` after `lit`, if `s` starts with it. */
  function Literal(s: string, lit: string): (r: Option<string>)
    ensures r.Some? <==> StartsWith(s, lit)
    ensures r.Some? ==> s == lit + r.value
  {
    if StartsWith(s, lit) then Some(s[|lit|..]) else None
  }

  /** An optional group `(lit)?`: taken when `s` starts with `lit`. */
  function Optional(s: string, lit: string): (r: string)
    ensures s == (if StartsWith(s, lit) then lit else "") + r
  {
    if StartsWith(s, lit) then s[|lit|..] else s
  }

  lemma LiteralOf(lit: string, rest: string)
    ensures Literal(lit + rest, lit) == Some(rest)
  {
    assert (lit + rest)[..|lit|] == lit;
  }

  lemma OptionalTaken(lit: string, rest: string)
    ensures Optional(lit + rest, lit) == rest
  {
    assert (lit + rest)[..|lit|] == lit;
  }

  /** An optional group whose first character is not the next one is skipped. */
  lemma OptionalSkipped(lit: string, s: string)
    requires lit != [] && s != [] && lit[0] != s[0]
    ensures Optional(s, lit) == s
  {
  }

  /** A literal whose first character is not the next one fails. */
  lemma LiteralFails(lit: string, s: string)
    requires lit != [] && s != [] && lit[0] != s[0]
    ensures Literal(s, lit) == None
  {
  }

  /** The three parts the pattern's groups pick out of a URL. */
  datatype UrlParts = UrlParts(secure: bool, english: bool, article: string)

  /** `^https?://` matched from the left as the regex engine does: `http`, an optional `s`,
      then `://`; whether the `s` was there, and the rest. No backtracking into the optional
      `s` can help, because the character after `http` must be `s` or `:`. */
  function Scheme(url: string): Option<(bool, string)> {
    match Literal(url, "http")
    case None => None
    case Some(a) =>
      match Literal(Optional(a, "s"), "://")
      case None => None
      case Some(rest) => Some((StartsWith(a, "s"), rest))
  }

  /** `(en\.)?wikipedia\.org/wiki/` on what follows the scheme: whether the `en.` was there,
      and the article part after the path. `en.` and `wikipedia.org` differ in their first
      letter, so here too no backtracking is needed. */
  function HostPath(s: string): Option<(bool, string)> {
    match Literal(Optional(s, "en."), WikiPath)
    case None => None
    case Some(article) => Some((StartsWith(s, "en."), article))
  }

  /** The head of the pattern, everything before its tail `.+$`. */
  function Head(url: string): Option<UrlParts> {
    match Scheme(url)
    case None => None
    case Some((secure, rest)) =>
      match HostPath(rest)
      case None => None
      case Some((english, article)) => Some(UrlParts(secure, english, article))
  }

  /** `validate_wikipedia_url` (HW4/scraper.py:16-18): the head of the pattern, then its tail
      `.+$` on the rest. */
  function ValidateWikipediaUrl(url: string): (ok: bool)
    ensures ok ==> StartsWith(url, "http")
  {
    Head(url).Some? && ArticleMatches(Head(url).value.article)
  }

  /** What follows the scheme in a URL of the pattern's form. */
  function HostPathText(english: bool, article: string): string {
    (if english then "en." else "") + (WikiPath + article)
  }

  /** The URLs the pattern describes: a lowercase scheme, `en.` or nothing, the fixed host and
      path, and an article part. */
  function Url(p: UrlParts): string {
    "http" + ((if p.secure then "s" else "") + ("://" + HostPathText(p.english, p.article)))
  }

  /** The scheme stage reads back the scheme it is given. */
  lemma SchemeOf(secure: bool, rest: string)
    ensures Scheme("http" + ((if secure then "s" else "") + ("://" + rest))) == Some((secure, rest))
  {
    var a := (if secure then "s" else "") + ("://" + rest);
    LiteralOf("http", a);
    if secure {
      assert a == "s" + ("://" + rest);
      OptionalTaken("s", "://" + rest);
      assert StartsWith(a, "s") by { assert a[..1] == "s"; }
    } else {
      assert a == "://" + rest;
      OptionalSkipped("s", a);
      assert !StartsWith(a, "s") by { assert a[0] == ':'; }
    }
    LiteralOf("://", rest);
  }

  /** The host and path stage reads back the host and article it is given. */
  lemma HostPathOf(english: bool, article: string)
    ensures HostPath(HostPathText(english, article)) == Some((english, article))
  {
    var path := WikiPath + article;
    var host := HostPathText(english, article);
    if english {
      assert host == "en." + path;
      OptionalTaken("en.", path);
      assert StartsWith(host, "en.") by { assert host[..3] == "en."; }
    } else {
      assert host == path;
      OptionalSkipped("en.", host);
      assert !StartsWith(host, "en.") by { assert host[0] == 'w'; }
    }
    LiteralOf(WikiPath, article);
  }

  /** The head reads the parts back off a URL of that form. */
  lemma HeadOfUrl(p: UrlParts)
    ensures Head(Url(p)) == Some(p)
  {
    SchemeOf(p.secure, HostPathText(p.english, p.article));
    HostPathOf(p.english, p.article);
  }

  /** A URL the head accepts is of that form. */
  lemma HeadIsUrl(url: string)
    requires Head(url).Some?
    ensures url == Url(Head(url).value)
  {
  }

  /** The validator accepts exactly the URLs the pattern describes. */
  lemma ValidateIsPattern(url: string)
    ensures ValidateWikipediaUrl(url) <==> exists p: UrlParts :: Article(p.article) && url == Url(p)
  {
    if ValidateWikipediaUrl(url) {
      HeadIsUrl(url);
      ArticleMatchesIsArticle(Head(url).value.article);
    }
    if exists p: UrlParts :: Article(p.article) && url == Url(p) {
      var p: UrlParts :| Article(p.article) && url == Url(p);
      HeadOfUrl(p);
      ArticleMatchesIsArticle(p.article);
    }
  }

  /** On a URL of the pattern's head, the validator decides by the article part alone. */
  lemma ValidateUrl(p: UrlParts)
    ensures ValidateWikipediaUrl(Url(p)) <==> Article(p.article)
  {
    HeadOfUrl(p);
    ArticleMatchesIsArticle(p.article);
  }

  /** Only the lowercase scheme passes: there is no case-insensitive flag. */
  lemma UppercaseSchemeRejected(rest: string)
    ensures !ValidateWikipediaUrl("HTTP" + rest) && !ValidateWikipediaUrl("Http" + rest)
  {
    LiteralFails("http", "HTTP" + rest);
    LiteralFails("http", "Http" + rest);
  }

  /** The match is anchored at the first character, so nothing, not even a space, may
      precede the scheme. */
  lemma NothingBeforeScheme(c: char, url: string)
    requires c != 'h'
    ensures !ValidateWikipediaUrl([c] + url)
  {
    LiteralFails("http", [c] + url);
  }

  /** The host is `wikipedia.org` or `en.wikipedia.org` and nothing else; another language
      prefix such as `fr.` fails. */
  lemma OtherSubdomainRejected(secure: bool, rest: string)
    ensures !ValidateWikipediaUrl("http" + ((if secure then "s" else "") + ("://" + ("fr." + rest))))
  {
    SchemeOf(secure, "fr." + rest);
    OptionalSkipped("en.", "fr." + rest);
    LiteralFails(WikiPath, "fr." + rest);
  }

  /** The path needs at least one character after `/wiki/`. */
  lemma BareWikiPathRejected(secure: bool, english: bool)
    ensures !ValidateWikipediaUrl(Url(UrlParts(secure, english, "")))
    ensures !ValidateWikipediaUrl(Url(UrlParts(secure, english, "\n")))
  {
    ValidateUrl(UrlParts(secure, english, ""));
    ValidateUrl(UrlParts(secure, english, "\n"));
  }

  /** A single newline after the article is accepted, because `$` also matches just before
      a final newline; a newline with anything after it fails, since `.` never matches one. */
  lemma NewlineRules(secure: bool, english: bool, body: string, rest: string)
    requires body != [] && '\n' !in body && rest != []
    ensures ValidateWikipediaUrl(Url(UrlParts(secure, english, body)))
    ensures ValidateWikipediaUrl(Url(UrlParts(secure, english, body + "\n")))
    ensures !ValidateWikipediaUrl(Url(UrlParts(secure, english, body + "\n" + rest)))
  {
    ValidateUrl(UrlParts(secure, english, body));
    var b := body + "\n";
    assert b[..|b| - 1] == body;
    ValidateUrl(UrlParts(secure, english, b));
    var b2 := body + "\n" + rest;
    assert b2[|body|] == '\n';
    assert b2[..|b2| - 1][|body|] == '\n';
    ValidateUrl(UrlParts(secure, english, b2));
  }

  /** `get_wikipedia_url` reading the lines `inputs`: the first line that passes, and how many
      lines were refused with "Invalid Wikipedia URL" before it. `None` when the input runs
      out first, where `input()` raises `EOFError`. */
  method GetWikipediaUrl(inputs: seq<string>) returns (url: Option<string>, refused: nat)
    ensures refused <= |inputs|
    ensures forall j | 0 <= j < refused :: !ValidateWikipediaUrl(inputs[j])
    ensures url.Some? ==> refused < |inputs| && url.value == inputs[refused] && ValidateWikipediaUrl(url.value)
    ensures url.None? ==> refused == |inputs|
  {
    refused := 0;
    while refused < |inputs|
      invariant refused <= |inputs|
      invariant forall j | 0 <= j < refused :: !ValidateWikipediaUrl(inputs[j])
    {
      if ValidateWikipediaUrl(inputs[refused]) {
        return Some(inputs[refused]), refused;
      }
      assert forall j | 0 <= j <= refused :: !ValidateWikipediaUrl(inputs[j]);
      refused := refused + 1;
    }
    url := None;
  }
}
