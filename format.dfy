/**
 * How the chat widget turns a message into what it shows. Bot content goes
 * through three global regular-expression replacements, in this order: a
 * lazily matched double-star pair on one line becomes a `strong` element,
 * a bracketed caption followed by a parenthesised url becomes an anchor that
 * opens in a new tab, and every newline becomes `<br>`; the result is
 * injected as HTML. User content is shown as plain text.
 *
 * Each replacement is modelled as a left-to-right scan: at each position the
 * pattern is tried; on a match the replacement is emitted and the scan resumes
 * after the match, otherwise the character is copied and the scan moves on.
 * That is how a global `String.prototype.replace` proceeds.
 */
module Format {
  import opened Wrappers
  import opened Messages

  /** The characters JavaScript's `.` does not match. */
  predicate IsLineTerminator(c: char) {
    c == '\n' || c == '\r' || c == '\U{2028}' || c == '\U{2029}'
  }

  /** True when `t` has `**` at offset `k`. */
  predicate StarsAt(t: string, k: int) {
    0 <= k && k + 1 < |t| && t[k] == '*' && t[k + 1] == '*'
  }

  /**
   * Where the lazy bold text stops in `t`: the first `**` with no line
   * terminator before it, or `None` when every `**` comes after a line terminator.
   */
  function CloseBold(t: string): (r: Option<nat>)
    ensures r.Some? ==> StarsAt(t, r.value)
    ensures r.Some? ==> forall i :: 0 <= i < r.value ==> !IsLineTerminator(t[i]) && !StarsAt(t, i)
    ensures r.None? ==> forall k :: StarsAt(t, k) ==> exists i :: 0 <= i < k && IsLineTerminator(t[i])
  {
    if StarsAt(t, 0) then Some(0)
    else if t != [] && !IsLineTerminator(t[0]) then
      match CloseBold(t[1..])
      case Some(k) =>
        assert forall i :: 1 <= i < k + 1 ==> t[i] == t[1..][i - 1] && (StarsAt(t, i) <==> StarsAt(t[1..], i - 1));
        Some(k + 1)
      case None =>
        assert forall k :: 1 <= k ==> (StarsAt(t, k) <==> StarsAt(t[1..], k - 1));
        assert forall i :: 0 <= i < |t| - 1 ==> t[1..][i] == t[i + 1];
        None
    else None
  }

  /** The length of the bold text when `**…**` matches at the start of `s`. */
  function BoldAt(s: string): Option<nat> {
    if StarsAt(s, 0) then CloseBold(s[2..]) else None
  }

  /** The first replacement, `**x**` to `<strong>x</strong>`. */
  function Bold(s: string): (r: string)
    ensures |r| >= |s|
    decreases |s|
  {
    if s == [] then []
    else match BoldAt(s)
      case Some(k) => "<strong>" + s[2..2 + k] + "</strong>" + Bold(s[4 + k..])
      case None => [s[0]] + Bold(s[1..])
  }

  /** No position of `s` starts a bold match. */
  predicate NoBold(s: string) {
    s == [] || (BoldAt(s).None? && NoBold(s[1..]))
  }

  /** The length of the longest prefix of `t` without `stop`: what a greedy `[^stop]+` consumes. */
  function RunWithout(t: string, stop: char): (n: nat)
    ensures n <= |t| && stop !in t[..n] && (n == |t| || t[n] == stop)
  {
    if t == [] || t[0] == stop then 0
    else
      var n := RunWithout(t[1..], stop);
      assert t[..n + 1] == [t[0]] + t[1..][..n];
      n + 1
  }

  /** A match of the link pattern: the caption, the url and how many characters it spans. */
  datatype LinkMatch = LinkMatch(caption: string, url: string, length: nat)

  /** The match of the link pattern (a non-empty caption without `]`, a non-empty url without `)`) at the start of `s`, if any. */
  function LinkAt(s: string): (r: Option<LinkMatch>)
    ensures r.Some? ==> r.value.length == |r.value.caption| + |r.value.url| + 4 <= |s|
  {
    if s == [] || s[0] != '[' then None
    else
      var a := RunWithout(s[1..], ']');
      if a == 0 || 2 + a >= |s| || s[2 + a] != '(' then None
      else
        var b := RunWithout(s[3 + a..], ')');
        if b == 0 || 3 + a + b >= |s| then None
        else Some(LinkMatch(s[1..1 + a], s[3 + a..3 + a + b], 4 + a + b))
  }

  /** A link match spans exactly `[caption](url)`, with a non-empty caption free of `]` and a non-empty url free of `)`. */
  lemma LinkAtShape(s: string)
    requires LinkAt(s).Some?
    ensures var m := LinkAt(s).value;
      m.caption != [] && ']' !in m.caption && m.url != [] && ')' !in m.url
      && s[..m.length] == "[" + m.caption + "](" + m.url + ")"
  {
    var m := LinkAt(s).value;
    var a, b := |m.caption|, |m.url|;
    assert s[1..][..a] == m.caption;
    assert s[3 + a..][..b] == m.url;
    assert s[..m.length] == [s[0]] + m.caption + [s[1 + a], s[2 + a]] + m.url + [s[3 + a + b]];
  }

  const AnchorOpen: string := "<a href=\""
  const AnchorAttributes: string :=
    "\" class=\"text-blue-600 " + "hover:text-blue-800 " + "underline font-medium\""
    + " target=\"_blank\"" + " rel=\"noopener noreferrer\">"
  const AnchorClose: string := "</a>"

  /** The anchor the link replacement writes around `caption` with target `url`. */
  function Anchor(caption: string, url: string): string {
    AnchorOpen + url + AnchorAttributes + caption + AnchorClose
  }

  /** The anchor's fixed text has no newline, so a newline in it can only come from the caption or the url. */
  lemma AnchorNewlines(caption: string, url: string)
    ensures '\n' in Anchor(caption, url) <==> '\n' in caption || '\n' in url
  {
    assert '\n' !in AnchorOpen && '\n' !in AnchorClose;
    assert '\n' !in "\" class=\"text-blue-600 ";
    assert '\n' !in "hover:text-blue-800 ";
    assert '\n' !in "underline font-medium\"";
    assert '\n' !in " target=\"_blank\"";
    assert '\n' !in " rel=\"noopener noreferrer\">";
  }

  /** The second replacement, `[caption](url)` to an anchor. */
  function Links(s: string): (r: string)
    ensures |r| >= |s|
    decreases |s|
  {
    if s == [] then []
    else match LinkAt(s)
      case Some(m) => Anchor(m.caption, m.url) + Links(s[m.length..])
      case None => [s[0]] + Links(s[1..])
  }

  /** No position of `s` starts a link match. */
  predicate NoLink(s: string) {
    s == [] || (LinkAt(s).None? && NoLink(s[1..]))
  }

  /** The third replacement, every newline to `<br>`. */
  function Breaks(s: string): (r: string)
    ensures '\n' !in r
  {
    if s == [] then []
    else (if s[0] == '\n' then "<br>" else [s[0]]) + Breaks(s[1..])
  }

  /** The whole chain applied to bot content. */
  function FormatContent(s: string): string {
    Breaks(Links(Bold(s)))
  }

  /** What a message turns into: markup injected as HTML, or text shown as it is. */
  datatype Rendered = Markup(html: string) | PlainText(text: string)

  function Render(m: Message): (r: Rendered)
    ensures m.sender == User ==> r == PlainText(m.content)
    ensures m.sender == Bot ==> r.Markup? && '\n' !in r.html
  {
    if m.sender == Bot then Markup(FormatContent(m.content)) else PlainText(m.content)
  }

  // ----- the bold replacement -----

  /** `**x**` becomes `<strong>x</strong>` when `x` is on one line and holds no `**` and does not end in `*`. */
  lemma {:induction false} BoldPair(x: string, rest: string)
    requires forall i :: 0 <= i < |x| ==> !IsLineTerminator(x[i])
    requires forall i :: 0 <= i < |x| && x[i] == '*' ==> i + 1 < |x| && x[i + 1] != '*'
    ensures Bold("**" + x + "**" + rest) == "<strong>" + x + "</strong>" + Bold(rest)
  {
    var s := "**" + x + "**" + rest;
    CloseBoldAfter(x, rest);
    assert s[2..] == x + "**" + rest;
    assert s[2..2 + |x|] == x;
    assert s[4 + |x|..] == rest;
  }

  lemma {:induction false} CloseBoldAfter(x: string, rest: string)
    requires forall i :: 0 <= i < |x| ==> !IsLineTerminator(x[i])
    requires forall i :: 0 <= i < |x| && x[i] == '*' ==> i + 1 < |x| && x[i + 1] != '*'
    ensures CloseBold(x + "**" + rest) == Some(|x|)
  {
    var t := x + "**" + rest;
    if x != [] {
      assert !StarsAt(t, 0);
      assert t[1..] == x[1..] + "**" + rest;
      CloseBoldAfter(x[1..], rest);
    }
  }

  /** A bold match makes the text strictly longer. */
  lemma BoldGrows(s: string)
    requires s != [] && BoldAt(s).Some?
    ensures |Bold(s)| > |s|
  {
  }

  /** Bold leaves `s` unchanged exactly when no position of `s` starts a match. */
  lemma {:induction false} BoldUnchangedIff(s: string)
    ensures Bold(s) == s <==> NoBold(s)
  {
    if s != [] {
      if BoldAt(s).Some? {
        BoldGrows(s);
      } else {
        BoldUnchangedIff(s[1..]);
        assert Bold(s) == [s[0]] + Bold(s[1..]);
        if Bold(s) == s {
          assert Bold(s)[1..] == s[1..];
        }
      }
    }
  }

  /** Text without `*` has no bold match. */
  lemma {:induction false} NoStarNoBold(s: string)
    requires '*' !in s
    ensures NoBold(s)
  {
    if s != [] {
      assert '*' !in s[1..];
      NoStarNoBold(s[1..]);
    }
  }

  /** A prefix without `*` is copied through unchanged. */
  lemma {:induction false} BoldCopiesStarFree(a: string, b: string)
    requires '*' !in a
    ensures Bold(a + b) == a + Bold(b)
  {
    if a != [] {
      var s := a + b;
      assert s[0] == a[0] && s[1..] == a[1..] + b;
      assert BoldAt(s) == None;
      BoldCopiesStarFree(a[1..], b);
      assert Bold(s) == [a[0]] + Bold(a[1..] + b);
      assert [a[0]] + (a[1..] + Bold(b)) == a + Bold(b);
    } else {
      assert a + b == b;
    }
  }

  // ----- the link replacement -----

  /** `[caption](url)` becomes the anchor when the caption has no `]` and the url no `)`. */
  lemma LinkPair(caption: string, url: string, rest: string)
    requires caption != [] && ']' !in caption
    requires url != [] && ')' !in url
    ensures Links("[" + caption + "](" + url + ")" + rest) == Anchor(caption, url) + Links(rest)
  {
    var s := "[" + caption + "](" + url + ")" + rest;
    var a, b := |caption|, |url|;
    assert s[1..1 + a] == caption;
    assert s[3 + a..3 + a + b] == url;
    assert s[4 + a + b..] == rest;
    LinkAtIndexed(s, a, b);
  }

  /** The link pattern matches at the start of `s` with a caption of length `a` and a url of length `b`. */
  lemma LinkAtIndexed(s: string, a: nat, b: nat)
    requires 0 < a && 0 < b && 3 + a + b < |s|
    requires s[0] == '[' && s[1 + a] == ']' && s[2 + a] == '(' && s[3 + a + b] == ')'
    requires ']' !in s[1..1 + a] && ')' !in s[3 + a..3 + a + b]
    ensures LinkAt(s) == Some(LinkMatch(s[1..1 + a], s[3 + a..3 + a + b], 4 + a + b))
  {
    assert s[1..][..a] == s[1..1 + a];
    RunWithoutStops(s[1..1 + a], s[1 + a..], ']');
    assert s[1..1 + a] + s[1 + a..] == s[1..];
    assert s[3 + a..][..b] == s[3 + a..3 + a + b];
    RunWithoutStops(s[3 + a..3 + a + b], s[3 + a + b..], ')');
    assert s[3 + a..3 + a + b] + s[3 + a + b..] == s[3 + a..];
  }

  lemma {:induction false} RunWithoutStops(t: string, rest: string, stop: char)
    requires stop !in t && rest != [] && rest[0] == stop
    ensures RunWithout(t + rest, stop) == |t|
  {
    if t != [] {
      assert (t + rest)[1..] == t[1..] + rest;
      RunWithoutStops(t[1..], rest, stop);
    }
  }

  /** Links leaves `s` unchanged exactly when no position of `s` starts a match. */
  lemma {:induction false} LinksUnchangedIff(s: string)
    ensures Links(s) == s <==> NoLink(s)
  {
    if s != [] {
      if LinkAt(s).None? {
        LinksUnchangedIff(s[1..]);
        assert Links(s) == [s[0]] + Links(s[1..]);
        assert s == [s[0]] + s[1..];
        if Links(s) == s {
          assert Links(s)[1..] == Links(s[1..]);
        }
      }
    }
  }

  /** Text without `[` has no link match. */
  lemma {:induction false} NoBracketNoLink(s: string)
    requires '[' !in s
    ensures NoLink(s)
  {
    if s != [] {
      assert '[' !in s[1..];
      NoBracketNoLink(s[1..]);
    }
  }

  /** A prefix without `[` is copied through unchanged. */
  lemma {:induction false} LinksCopiesBracketFree(a: string, b: string)
    requires '[' !in a
    ensures Links(a + b) == a + Links(b)
  {
    if a != [] {
      var s := a + b;
      assert s[0] == a[0] && s[1..] == a[1..] + b;
      assert LinkAt(s) == None;
      LinksCopiesBracketFree(a[1..], b);
      assert Links(s) == [a[0]] + Links(a[1..] + b);
      assert [a[0]] + (a[1..] + Links(b)) == a + Links(b);
    } else {
      assert a + b == b;
    }
  }

  // ----- the newline replacement -----

  /** Breaks leaves `s` unchanged exactly when `s` has no newline. */
  lemma {:induction false} BreaksUnchangedIff(s: string)
    ensures Breaks(s) == s <==> '\n' !in s
  {
    if s != [] {
      BreaksUnchangedIff(s[1..]);
      if s[0] == '\n' {
        assert Breaks(s)[0] == '<';
      } else {
        assert Breaks(s) == [s[0]] + Breaks(s[1..]);
        assert s == [s[0]] + s[1..];
        if Breaks(s) == s {
          assert Breaks(s)[1..] == Breaks(s[1..]);
        }
      }
    }
  }

  /** Breaks works piece by piece. */
  lemma {:induction false} BreaksAppend(a: string, b: string)
    ensures Breaks(a + b) == Breaks(a) + Breaks(b)
  {
    if a != [] {
      assert (a + b)[0] == a[0] && (a + b)[1..] == a[1..] + b;
      BreaksAppend(a[1..], b);
      var h := if a[0] == '\n' then "<br>" else [a[0]];
      assert Breaks(a + b) == h + Breaks(a[1..] + b);
      assert Breaks(a) == h + Breaks(a[1..]);
      assert h + (Breaks(a[1..]) + Breaks(b)) == (h + Breaks(a[1..])) + Breaks(b);
    } else {
      assert a + b == b;
    }
  }

  // ----- the chain -----

  /** Content without `*`, `[` or newline is shown exactly as written. */
  lemma FormatPlain(s: string)
    requires '*' !in s && '[' !in s && '\n' !in s
    ensures FormatContent(s) == s
  {
    NoStarNoBold(s);
    BoldUnchangedIff(s);
    NoBracketNoLink(s);
    LinksUnchangedIff(s);
    BreaksUnchangedIff(s);
  }

  /** Text the three replacements all copy through: no `*`, no `[` and no line terminator. */
  predicate Plain(s: string) {
    '*' !in s && '[' !in s && forall i :: 0 <= i < |s| ==> !IsLineTerminator(s[i])
  }

  /**
   * Bold text, then a space and a link, then a newline and plain text, as in
   * `**hi** [go](http://x)` followed by a newline and `line2`: each markup is
   * replaced and nothing else changes.
   */
  lemma FormatBoldLinkLine(x: string, caption: string, url: string, y: string)
    requires Plain(x) && Plain(y)
    requires caption != [] && ']' !in caption && '*' !in caption && '\n' !in caption
    requires url != [] && ')' !in url && '*' !in url && '\n' !in url
    ensures FormatContent("**" + x + "** [" + caption + "](" + url + ")\n" + y)
         == "<strong>" + x + "</strong> " + Anchor(caption, url) + "<br>" + y
  {
    var s := "**" + x + "** [" + caption + "](" + url + ")\n" + y;
    var link := "[" + caption + "](" + url + ")" + ("\n" + y);
    var head := "<strong>" + x + "</strong> ";
    var body := head + Anchor(caption, url);
    assert Bold(s) == head + link by {
      assert s == "**" + x + "**" + (" " + link);
      assert '*' !in link;
      ExampleBoldStage(x, link);
    }
    assert Links(head + link) == body + ("\n" + y) by {
      assert '[' !in head;
      assert '[' !in "\n" + y;
      ExampleLinkStage(head, caption, url, "\n" + y);
    }
    assert Breaks(body + ("\n" + y)) == body + "<br>" + y by {
      AnchorNewlines(caption, url);
      assert '\n' !in body;
      ExampleBreakStage(body, y);
    }
  }

  lemma ExampleBoldStage(x: string, link: string)
    requires Plain(x) && '*' !in link
    ensures Bold("**" + x + "**" + (" " + link)) == "<strong>" + x + "</strong> " + link
  {
    var tail := " " + link;
    BoldPair(x, tail);
    BoldCopiesStarFree(tail, "");
    assert tail + "" == tail;
  }

  lemma ExampleLinkStage(head: string, caption: string, url: string, rest: string)
    requires '[' !in head && '[' !in rest
    requires caption != [] && ']' !in caption
    requires url != [] && ')' !in url
    ensures Links(head + ("[" + caption + "](" + url + ")" + rest)) == head + Anchor(caption, url) + rest
  {
    LinksCopiesBracketFree(head, "[" + caption + "](" + url + ")" + rest);
    LinkPair(caption, url, rest);
    NoBracketNoLink(rest);
    LinksUnchangedIff(rest);
  }

  lemma ExampleBreakStage(body: string, y: string)
    requires '\n' !in body && '\n' !in y
    ensures Breaks(body + ("\n" + y)) == body + "<br>" + y
  {
    BreaksAppend(body, "\n" + y);
    BreaksUnchangedIff(body);
    BreaksAppend("\n", y);
    BreaksUnchangedIff(y);
  }

  /** The worked example `**hi** [go](http://x)`, newline, `line2`, as an instance of `FormatBoldLinkLine`. */
  lemma FormatExample(s: string)
    requires s == "**hi** [go](http://x)\nline2"
    ensures FormatContent(s) == "<strong>" + "hi" + "</strong> " + Anchor("go", "http://x") + "<br>" + "line2"
  {
    assert s == "**" + "hi" + "** [" + "go" + "](" + "http://x" + ")\n" + "line2";
    assert Plain("hi") && Plain("line2");
    FormatBoldLinkLine("hi", "go", "http://x", "line2");
  }

  /**
   * The chain is not idempotent: a `**` pair split by a newline is left alone,
   * but once the newline has become `<br>` the pair matches. The widget always
   * formats the stored content, never its own output.
   */
  lemma FormatNotIdempotent(x: string)
    requires Plain(x)
    ensures var s := "**" + x + "\n" + "**"; FormatContent(FormatContent(s)) != FormatContent(s)
  {
    FormatKeepsSplitPair(x);
    FormatJoinsBrokenLine(x);
    assert |"<strong>" + x + "<br>" + "</strong>"| != |"**" + x + "<br>" + "**"|;
  }

  /** A `**` pair with a newline between is kept; only the newline is replaced. */
  lemma FormatKeepsSplitPair(x: string)
    requires Plain(x)
    ensures FormatContent("**" + x + "\n" + "**") == "**" + x + "<br>" + "**"
  {
    var s := "**" + x + "\n" + "**";
    assert Bold(s) == s by {
      NewlineBlocksBold(x);
      assert s == "**" + x + "\n**";
    }
    assert Links(s) == s by {
      assert '[' !in s;
      LinksPlain(s);
    }
    BreaksLine("**" + x, "**");
  }

  /** The same pair with `<br>` in place of the newline becomes bold. */
  lemma FormatJoinsBrokenLine(x: string)
    requires Plain(x)
    ensures FormatContent("**" + x + "<br>" + "**") == "<strong>" + x + "<br>" + "</strong>"
  {
    var u := "<strong>" + x + "<br>" + "</strong>";
    JoinedBoldStage(x);
    assert Links(u) == u by {
      assert '[' !in u;
      LinksPlain(u);
    }
    assert '\n' !in u;
    BreaksUnchangedIff(u);
  }

  /** The bold stage of `FormatJoinsBrokenLine`. */
  lemma JoinedBoldStage(x: string)
    requires Plain(x)
    ensures Bold("**" + x + "<br>" + "**") == "<strong>" + x + "<br>" + "</strong>"
  {
    var x2 := x + "<br>";
    assert Plain(x2) by {
      forall i | 0 <= i < |x2| ensures !IsLineTerminator(x2[i]) {
        if i < |x| { assert x2[i] == x[i]; }
      }
    }
    BoldPlain(x2);
    assert "**" + x + "<br>" + "**" == "**" + x2 + "**";
    assert "<strong>" + x + "<br>" + "</strong>" == "<strong>" + x2 + "</strong>";
  }

  /** Plain text between `**` becomes bold. */
  lemma BoldPlain(x: string)
    requires Plain(x)
    ensures Bold("**" + x + "**") == "<strong>" + x + "</strong>"
  {
    BoldPair(x, "");
    assert "**" + x + "**" + "" == "**" + x + "**";
  }

  /** Text without `[` passes the link replacement unchanged. */
  lemma LinksPlain(s: string)
    requires '[' !in s
    ensures Links(s) == s
  {
    NoBracketNoLink(s);
    LinksUnchangedIff(s);
  }

  /** One newline between newline-free lines becomes `<br>`. */
  lemma BreaksLine(a: string, b: string)
    requires '\n' !in a && '\n' !in b
    ensures Breaks(a + "\n" + b) == a + "<br>" + b
  {
    BreaksAppend(a + "\n", b);
    BreaksAppend(a, "\n");
    BreaksUnchangedIff(a);
    BreaksUnchangedIff(b);
  }

  /** `**`, plain text, a newline and `**` hold no bold match. */
  lemma NewlineBlocksBold(x: string)
    requires Plain(x)
    ensures Bold("**" + x + "\n**") == "**" + x + "\n**"
  {
    var s := "**" + x + "\n**";
    CloseBoldBlocked(x, "**");
    assert s[2..] == x + "\n" + "**";
    assert BoldAt(s) == None;
    assert "\n**"[1..] == "**" && "**"[1..] == "*" && "*"[1..] == [];
    assert NoBold("*") && NoBold("**") && NoBold("\n**");
    NoBoldStarFreePrefix(x, "\n**");
    assert s[1..] == "*" + (x + "\n**");
    assert BoldAt(s[1..]) == None;
    assert s[1..][1..] == x + "\n**";
    BoldUnchangedIff(s);
  }

  /** No `**` on the line before the first newline: the lazy bold text cannot close. */
  lemma {:induction false} CloseBoldBlocked(x: string, rest: string)
    requires '*' !in x
    ensures CloseBold(x + "\n" + rest) == None
  {
    var t := x + "\n" + rest;
    if x != [] {
      assert t[0] == x[0] && t[1..] == x[1..] + "\n" + rest;
      CloseBoldBlocked(x[1..], rest);
    } else {
      assert t[0] == '\n';
    }
  }

  /** A prefix without `*` adds no bold match. */
  lemma {:induction false} NoBoldStarFreePrefix(a: string, b: string)
    requires '*' !in a && NoBold(b)
    ensures NoBold(a + b)
  {
    if a != [] {
      assert (a + b)[0] == a[0] && (a + b)[1..] == a[1..] + b;
      NoBoldStarFreePrefix(a[1..], b);
    } else {
      assert a + b == b;
    }
  }
}
