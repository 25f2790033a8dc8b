/** Redacting URLs from text that may carry RPC endpoints taken from secrets. */
module UrlScrub {
  const REDACTED := "<redacted-url>"

  /** Unicode White_Space. */
  predicate IsWhitespace(c: char) {
    var x := c as int;
    || 0x09 <= x <= 0x0d || x == 0x20 || x == 0x85 || x == 0xa0 || x == 0x1680
    || 0x2000 <= x <= 0x200a || x == 0x2028 || x == 0x2029 || x == 0x202f || x == 0x205f || x == 0x3000
  }

  predicate EndsUrl(c: char) {
    IsWhitespace(c) || c in {'\'', '"', ')', ']', ',', ';', '<', '>'}
  }

  predicate StartsUrl(s: string) {
    "http://" <= s || "https://" <= s
  }

  /** The length of the run before the first terminator. */
  function UrlLength(s: string): (n: nat)
    ensures n <= |s| && (forall i :: 0 <= i < n ==> !EndsUrl(s[i])) && (n < |s| ==> EndsUrl(s[n]))
  {
    if s == "" || EndsUrl(s[0]) then 0 else 1 + UrlLength(s[1..])
  }

  function Scrub(s: string): string
    decreases |s|
  {
    if s == "" then ""
    else if StartsUrl(s) then
      assert !EndsUrl(s[0]);
      REDACTED + Scrub(s[UrlLength(s)..])
    else [s[0]] + Scrub(s[1..])
  }

  /** One step of scrubbing: what is shown of the front, and how much of the input it covers. */
  lemma ScrubStep(s: string, shown: string, n: nat)
    requires s != ""
    requires if StartsUrl(s) then shown == REDACTED && n == UrlLength(s) else shown == [s[0]] && n == 1
    ensures 0 < n <= |s| && Scrub(s) == shown + Scrub(s[n..])
  {
    assert StartsUrl(s) ==> !EndsUrl(s[0]);
  }

  lemma Carry(out: string, shown: string, rest: string)
    ensures (out + shown) + rest == out + (shown + rest)
  {
  }

  method ScrubUrls(input: string) returns (out: string)
    ensures out == Scrub(input)
  {
    out := "";
    var i := 0;
    while i < |input|
      invariant 0 <= i <= |input|
      invariant out + Scrub(input[i..]) == Scrub(input)
    {
      var rest := input[i..];
      var shown, n := [rest[0]], 1;
      if StartsUrl(rest) {
        shown, n := REDACTED, UrlLength(rest);
      }
      ScrubStep(rest, shown, n);
      Carry(out, shown, Scrub(rest[n..]));
      assert rest[n..] == input[i + n..];
      out := out + shown;
      i := i + n;
    }
  }

  // ----- no URL survives

  ghost predicate HasNoUrl(s: string) {
    forall i :: 0 <= i < |s| ==> !StartsUrl(s[i..])
  }

  /** A word without '<' at the front of the output was copied from the front of the input. */
  lemma {:induction false} CopiedWord(word: string, s: string)
    requires '<' !in word && word <= Scrub(s)
    ensures word <= s
    decreases |word|
  {
    if word != "" {
      assert Scrub(s)[0] == word[0];
      CopiedWord(word[1..], s[1..]);
      assert s == [s[0]] + s[1..];
    }
  }

  /** Nothing in the output starts a URL, not even across the seams of redactions. */
  lemma {:induction false} NoUrlSurvives(s: string)
    ensures HasNoUrl(Scrub(s))
    decreases |s|
  {
    var out := Scrub(s);
    if s != "" {
      var shown := if StartsUrl(s) then REDACTED else [s[0]];
      var rest := if StartsUrl(s) then s[UrlLength(s)..] else s[1..];
      assert out == shown + Scrub(rest);
      assert |rest| < |s| by {
        assert StartsUrl(s) ==> !EndsUrl(s[0]);
      }
      NoUrlSurvives(rest);
      forall i | 0 <= i < |out|
        ensures !StartsUrl(out[i..])
      {
        if i >= |shown| {
          assert out[i..] == Scrub(rest)[i - |shown|..];
        } else if StartsUrl(s) {
          assert out[i..][0] == REDACTED[i] != 'h';
        } else if StartsUrl(out[i..]) {
          assert out[0..] == out;
          var scheme := if "http://" <= out then "http://" else "https://";
          CopiedWord(scheme, s);
        }
      }
    }
  }

  lemma TailHasNoUrl(s: string)
    requires s != "" && HasNoUrl(s)
    ensures !StartsUrl(s) && HasNoUrl(s[1..])
  {
    assert s[0..] == s;
    forall i | 0 <= i < |s[1..]|
      ensures !StartsUrl(s[1..][i..])
    {
      assert s[1..][i..] == s[i + 1..];
    }
  }

  lemma {:induction false} CleanTextIsKept(s: string)
    requires HasNoUrl(s)
    ensures Scrub(s) == s
    decreases |s|
  {
    if s != "" {
      TailHasNoUrl(s);
      CleanTextIsKept(s[1..]);
    }
  }

  lemma ScrubIsIdempotent(s: string)
    ensures Scrub(Scrub(s)) == Scrub(s)
  {
    NoUrlSurvives(s);
    CleanTextIsKept(Scrub(s));
  }

  // ----- what is kept and what is hidden

  /** `u` is a whole URL when followed by `rest`. */
  predicate UrlThen(u: string, rest: string) {
    StartsUrl(u) && (forall i :: 0 <= i < |u| ==> !EndsUrl(u[i])) && (rest == "" || EndsUrl(rest[0]))
  }

  lemma {:induction false} UrlLengthIs(run: string, rest: string)
    requires forall i :: 0 <= i < |run| ==> !EndsUrl(run[i])
    requires rest == "" || EndsUrl(rest[0])
    ensures UrlLength(run + rest) == |run|
  {
    if run != "" {
      assert (run + rest)[1..] == run[1..] + rest;
      UrlLengthIs(run[1..], rest);
    } else {
      assert run + rest == rest;
    }
  }

  lemma UrlIsRedacted(u: string, rest: string)
    requires UrlThen(u, rest)
    ensures Scrub(u + rest) == REDACTED + Scrub(rest)
  {
    UrlLengthIs(u, rest);
    assert (u + rest)[|u|..] == rest;
    assert StartsUrl(u + rest);
  }

  /** Letters, digits and the punctuation of hosts, paths, ports, credentials and queries. */
  predicate UrlCharacter(c: char) {
    || 'a' <= c <= 'z' || 'A' <= c <= 'Z' || '0' <= c <= '9'
    || c in ['.', ':', '/', '-', '_', '?', '=', '&', '%', '#', '@', '~', '+']
  }

  /** A URL reaches up to the first blank, quote, closing bracket, comma, semicolon or angle bracket. */
  lemma UrlEndsAt(u: string, c: char, rest: string)
    requires "http://" <= u || "https://" <= u
    requires forall i :: 0 <= i < |u| ==> UrlCharacter(u[i])
    requires c in [' ', '\t', '\n', '\r', '\'', '"', ')', ']', ',', ';', '<', '>']
    ensures Scrub(u + [c] + rest) == "<redacted-url>" + ([c] + Scrub(rest))
  {
    assert u + [c] + rest == u + ([c] + rest);
    UrlIsRedacted(u, [c] + rest);
    assert ([c] + rest)[1..] == rest;
  }

  /** No URL start straddles the boundary before a URL: its scheme has one 'h', at the front. */
  lemma NoStraddle(p: string, u: string)
    requires p != "" && StartsUrl(u)
    ensures StartsUrl(p + u) <==> StartsUrl(p)
  {
    assert u[0] == 'h';
    if |p| < 8 {
      assert (p + u)[|p|] == 'h';
    }
  }

  lemma PlainHead(p: string, u: string, rest: string)
    requires p != "" && !StartsUrl(p) && StartsUrl(u)
    ensures Scrub(p + u + rest) == [p[0]] + Scrub(p[1..] + u + rest)
  {
    NoStraddle(p, u + rest);
    assert p + u + rest == p + (u + rest);
    assert (p + u + rest)[1..] == p[1..] + u + rest;
  }

  lemma UrlHead(p: string, u: string, rest: string)
    requires StartsUrl(p) && UrlLength(p) < |p|
    ensures Scrub(p + u + rest) == REDACTED + Scrub(p[UrlLength(p)..] + u + rest)
  {
    var n := UrlLength(p);
    var more := p[n..] + u + rest;
    assert p[..n] + more == p + u + rest;
    assert !EndsUrl(p[0]);
    UrlLengthIs(p[..n], more);
    assert (p + u + rest)[n..] == more;
    assert StartsUrl(p + u + rest);
  }

  lemma Swallowed(p: string, u: string, rest: string)
    requires StartsUrl(p) && UrlLength(p) == |p| && UrlThen(u, rest)
    ensures Scrub(p + u + rest) == REDACTED + Scrub(rest)
  {
    assert StartsUrl(p + u);
    UrlIsRedacted(p + u, rest);
  }

  lemma FirstBack(p: string, t: string)
    requires p != ""
    ensures [p[0]] + (p[1..] + t) == p + t
  {
  }

  lemma {:induction false} CleanPrefixIsKept(p: string, u: string, rest: string, t: string)
    requires HasNoUrl(p) && StartsUrl(u) && Scrub(u + rest) == t
    ensures Scrub(p + u + rest) == p + t
    decreases |p|
  {
    if p == "" {
      assert p + u + rest == u + rest && p + t == t;
    } else {
      TailHasNoUrl(p);
      PlainHead(p, u, rest);
      CleanPrefixIsKept(p[1..], u, rest, t);
      FirstBack(p, t);
    }
  }

  /** Text before the first URL is kept, the URL is replaced, and scrubbing goes on behind it. */
  lemma TextIsKept(p: string, u: string, rest: string)
    requires HasNoUrl(p) && UrlThen(u, rest)
    ensures Scrub(p + u + rest) == p + (REDACTED + Scrub(rest))
  {
    UrlIsRedacted(u, rest);
    CleanPrefixIsKept(p, u, rest, Scrub(u + rest));
  }

  lemma WordWithin(word: string, s: string)
    requires word <= s && forall i :: 0 <= i < |word| ==> !EndsUrl(word[i])
    ensures word <= s[..UrlLength(s)]
  {
    assert forall i :: 0 <= i < |word| ==> s[i] == word[i];
  }

  lemma SchemesRunOn()
    ensures forall i :: 0 <= i < 7 ==> !EndsUrl("http://"[i])
    ensures forall i :: 0 <= i < 8 ==> !EndsUrl("https://"[i])
  {
  }

  /** The run before the first terminator contains the whole scheme. */
  lemma SchemeWithin(s: string)
    requires StartsUrl(s)
    ensures UrlThen(s[..UrlLength(s)], s[UrlLength(s)..])
  {
    SchemesRunOn();
    WordWithin(if "http://" <= s then "http://" else "https://", s);
  }

  lemma Regroup(c: char, q: string, u: string, rest: string)
    ensures [c] + (q + u + rest) == [c] + q + u + rest
    ensures [c] + (q + u + rest) == [c] + q + (u + rest)
  {
  }

  lemma TailHasUrl(s: string)
    requires !HasNoUrl(s) && !StartsUrl(s)
    ensures s != "" && !HasNoUrl(s[1..])
  {
    var i :| 0 <= i < |s| && StartsUrl(s[i..]);
    assert s[0..] == s;
    assert s[1..][i - 1..] == s[i..];
  }

  /** Any text with a URL in it splits at the first one. */
  lemma {:induction false} FirstUrl(s: string) returns (p: string, u: string, rest: string)
    requires !HasNoUrl(s)
    ensures s == p + u + rest && HasNoUrl(p) && UrlThen(u, rest)
    decreases |s|
  {
    if StartsUrl(s) {
      SchemeWithin(s);
      p, u, rest := "", s[..UrlLength(s)], s[UrlLength(s)..];
      assert s == "" + s[..UrlLength(s)] + s[UrlLength(s)..];
    } else {
      TailHasUrl(s);
      var q: string;
      q, u, rest := FirstUrl(s[1..]);
      p := [s[0]] + q;
      assert s == [s[0]] + s[1..];
      Regroup(s[0], q, u, rest);
      LongerPrefix(s[0], q, u + rest);
    }
  }

  lemma LongerPrefix(c: char, q: string, more: string)
    requires HasNoUrl(q) && !StartsUrl([c] + q + more)
    ensures HasNoUrl([c] + q)
  {
    var p := [c] + q;
    forall i | 0 <= i < |p|
      ensures !StartsUrl(p[i..])
    {
      if i == 0 {
        assert p[0..] == p;
        assert StartsUrl(p) ==> StartsUrl(p + more);
      } else {
        assert p[i..] == q[i - 1..];
      }
    }
  }

  /** Text cut into URLs and what stands between them. */
  datatype Segments = End(text: string) | Cut(text: string, url: string, rest: Segments)

  function Joined(g: Segments): string {
    match g
    case End(text) => text
    case Cut(text, url, rest) => text + url + Joined(rest)
  }

  /** The same text with each URL replaced and everything else in place. */
  function Shown(g: Segments): string {
    match g
    case End(text) => text
    case Cut(text, url, rest) => text + (REDACTED + Shown(rest))
  }

  /** Every URL is a whole one, and no text between contains another. */
  ghost predicate Proper(g: Segments) {
    match g
    case End(text) => HasNoUrl(text)
    case Cut(text, url, rest) => HasNoUrl(text) && UrlThen(url, Joined(rest)) && Proper(rest)
  }

  lemma {:induction false} ShownIsScrubbed(g: Segments)
    requires Proper(g)
    ensures Scrub(Joined(g)) == Shown(g)
  {
    match g
    case End(text) => CleanTextIsKept(text);
    case Cut(text, url, rest) =>
      TextIsKept(text, url, Joined(rest));
      ShownIsScrubbed(rest);
  }

  /** Every input is cut into text and URLs, and scrubbing replaces exactly the URLs. */
  lemma {:induction false} ScrubReplacesExactlyUrls(s: string) returns (g: Segments)
    ensures Joined(g) == s && Proper(g) && Scrub(s) == Shown(g)
    decreases |s|
  {
    if HasNoUrl(s) {
      g := End(s);
    } else {
      var p, u, rest := FirstUrl(s);
      assert |u| > 0;
      var tail := ScrubReplacesExactlyUrls(rest);
      g := Cut(p, u, tail);
    }
    ShownIsScrubbed(g);
  }

  /** Whatever a URL's host, path or key, and wherever it stands, the output is the same. */
  lemma {:induction false} SecretsDoNotShow(p: string, u: string, v: string, rest: string)
    requires UrlThen(u, rest) && UrlThen(v, rest)
    ensures Scrub(p + u + rest) == Scrub(p + v + rest)
    decreases |p|
  {
    if p == "" {
      assert p + u + rest == u + rest && p + v + rest == v + rest;
      UrlIsRedacted(u, rest);
      UrlIsRedacted(v, rest);
    } else if !StartsUrl(p) {
      PlainHead(p, u, rest);
      PlainHead(p, v, rest);
      SecretsDoNotShow(p[1..], u, v, rest);
    } else if UrlLength(p) == |p| {
      Swallowed(p, u, rest);
      Swallowed(p, v, rest);
    } else {
      assert !EndsUrl(p[0]);
      UrlHead(p, u, rest);
      UrlHead(p, v, rest);
      SecretsDoNotShow(p[UrlLength(p)..], u, v, rest);
    }
  }
}
