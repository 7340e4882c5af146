/**
 * How the chat client turns message text into the markup it puts inside a
 * message bubble: the text is escaped the way an HTML serializer escapes a
 * text node ("escaping a string", section 13.3 of the WHATWG HTML Living
 * Standard), and only then is each ```...``` span turned into a <pre> block.
 */
module Markup {

  import opened Wrappers
  import opened Text

  /** No '<' and no '>' anywhere in `s`. */
  predicate NoAngle(s: string) {
    forall i | 0 <= i < |s| :: s[i] != '<' && s[i] != '>'
  }

  // ---------------------------------------------------------------------
  // Escaping
  // ---------------------------------------------------------------------

  /** The serialization of one character of a text node. */
  function EscapeChar(c: char): string {
    if c == '&' then "&amp;"
    else if c == '\U{00A0}' then "&nbsp;"
    else if c == '<' then "&lt;"
    else if c == '>' then "&gt;"
    else [c]
  }

  /**
   * sanitizeHTML: the innerHTML of a div whose textContent is `s`. No angle
   * bracket of the input survives, so no markup can come from the text.
   */
  function Escape(s: string): (r: string)
    ensures NoAngle(r)
    ensures |s| <= |r|
  {
    if s == [] then [] else EscapeChar(s[0]) + Escape(s[1..])
  }

  /** Decoding of the character references Escape produces, as a parser reads them back. */
  function Unescape(r: string): (s: string)
    decreases |r|
  {
    if r == [] then []
    else if StartsWith(r, "&amp;") then "&" + Unescape(r[5..])
    else if StartsWith(r, "&nbsp;") then "\U{00A0}" + Unescape(r[6..])
    else if StartsWith(r, "&lt;") then "<" + Unescape(r[4..])
    else if StartsWith(r, "&gt;") then ">" + Unescape(r[4..])
    else [r[0]] + Unescape(r[1..])
  }

  lemma StartsWithAppend(a: string, b: string, p: string)
    requires StartsWith(a, p)
    ensures StartsWith(a + b, p)
  {
    assert (a + b)[..|p|] == a[..|p|];
  }

  lemma UnescapePlain(c: char, t: string)
    requires c != '&'
    ensures Unescape([c] + t) == [c] + Unescape(t)
  {
    var r := [c] + t;
    assert r[0] == c;
    assert !StartsWith(r, "&amp;");
    assert !StartsWith(r, "&nbsp;");
    assert !StartsWith(r, "&lt;");
    assert !StartsWith(r, "&gt;");
    assert r[1..] == t;
  }

  lemma UnescapeAfterEscapeChar(c: char, t: string)
    ensures Unescape(EscapeChar(c) + t) == [c] + Unescape(t)
  {
    var e := EscapeChar(c);
    var r := e + t;
    assert r[..|e|] == e;
    assert r[|e|..] == t;
    if c == '&' {
      assert StartsWith(r, "&amp;");
    } else if c == '\U{00A0}' {
      assert r[..5][1] == r[1] == 'n';
      assert StartsWith(r, "&nbsp;");
    } else if c == '<' {
      assert |r| >= 5 ==> r[..5][1] == r[1] == 'l';
      assert |r| >= 6 ==> r[..6][1] == r[1];
      assert StartsWith(r, "&lt;");
    } else if c == '>' {
      assert |r| >= 5 ==> r[..5][1] == r[1] == 'g';
      assert |r| >= 6 ==> r[..6][1] == r[1];
      assert r[..4][1] == r[1];
      assert StartsWith(r, "&gt;");
    } else {
      UnescapePlain(c, t);
    }
  }

  /** Escaping loses nothing: reading the escaped text back gives the original text. */
  lemma {:induction false} UnescapeEscape(s: string)
    ensures Unescape(Escape(s)) == s
  {
    if s != [] {
      UnescapeAfterEscapeChar(s[0], Escape(s[1..]));
      UnescapeEscape(s[1..]);
      assert [s[0]] + s[1..] == s;
    }
  }

  // ---------------------------------------------------------------------
  // Code blocks
  // ---------------------------------------------------------------------

  /** A ``` fence starts at index `j` of `t`. */
  predicate FenceAt(t: string, j: int) {
    0 <= j && j + 3 <= |t| && t[j] == '`' && t[j + 1] == '`' && t[j + 2] == '`'
  }

  /** The leftmost fence at or after `from`, if there is one. */
  function FindFence(t: string, from: nat): (i: Option<nat>)
    requires from <= |t|
    ensures i.Some? ==> from <= i.value && FenceAt(t, i.value)
    ensures i.Some? ==> forall j | from <= j < i.value :: !FenceAt(t, j)
    ensures i.None? ==> forall j | from <= j :: !FenceAt(t, j)
    decreases |t| - from
  {
    if |t| < from + 3 then None
    else if FenceAt(t, from) then Some(from)
    else FindFence(t, from + 1)
  }

  /** No fence starts anywhere in `s`. */
  predicate NoFence(s: string) {
    forall j | 0 <= j < |s| :: !FenceAt(s, j)
  }

  /**
   * The replacement /```([\s\S]*?)```/g -> "<pre>$1</pre>": scanning left to
   * right, each fence is paired with the nearest fence after it, and the
   * text between them becomes a <pre> block. A fence with no partner, and
   * everything after it, stays as it is (no later fence could be paired
   * either, since a partner for it would be a partner for the first).
   */
  function FormatCodeBlocks(t: string): (r: string)
    ensures NoFence(t) ==> r == t
    ensures |t| <= |r|
    decreases |t|
  {
    match FindFence(t, 0)
    case None => t
    case Some(i) =>
      match FindFence(t, i + 3)
      case None => t
      case Some(k) => t[..i] + ("<pre>" + (t[i + 3..k] + ("</pre>" + FormatCodeBlocks(t[k + 3..]))))
  }

  /** Puts the fences back where FormatCodeBlocks put tags. */
  function Unformat(r: string): (t: string)
    decreases |r|
  {
    if r == [] then []
    else if StartsWith(r, "<pre>") then "```" + Unformat(r[5..])
    else if StartsWith(r, "</pre>") then "```" + Unformat(r[6..])
    else [r[0]] + Unformat(r[1..])
  }

  /** A string that does not begin with '<' does not begin with a tag. */
  lemma NoTagAtPlainChar(r: string)
    requires r != [] && r[0] != '<'
    ensures !StartsWith(r, "<pre>") && !StartsWith(r, "</pre>")
  {
    if |r| >= 5 {
      assert r[..5][0] == r[0];
    }
    if |r| >= 6 {
      assert r[..6][0] == r[0];
    }
  }

  lemma {:induction false} UnformatPlainPrefix(x: string, y: string)
    requires NoAngle(x)
    ensures Unformat(x + y) == x + Unformat(y)
    decreases |x|
  {
    if x == [] {
      assert x + y == y;
    } else {
      var r := x + y;
      assert r[0] == x[0] && x[0] != '<';
      NoTagAtPlainChar(r);
      assert r[1..] == x[1..] + y;
      NoAngleSuffix(x, 1);
      UnformatPlainPrefix(x[1..], y);
      assert Unformat(r) == [x[0]] + (x[1..] + Unformat(y));
      assert [x[0]] + (x[1..] + Unformat(y)) == ([x[0]] + x[1..]) + Unformat(y);
      assert [x[0]] + x[1..] == x;
    }
  }

  lemma UnformatOpenTag(y: string)
    ensures Unformat("<pre>" + y) == "```" + Unformat(y)
  {
    var r := "<pre>" + y;
    assert r[..5] == "<pre>";
    assert r[5..] == y;
  }

  lemma UnformatCloseTag(y: string)
    ensures Unformat("</pre>" + y) == "```" + Unformat(y)
  {
    var r := "</pre>" + y;
    assert r[..6] == "</pre>";
    assert r[..5][1] == r[1] == '/';
    assert r[6..] == y;
  }

  /** `t` read as its text up to two fences, the fences, and what follows. */
  lemma SplitAtFences(t: string, i: nat, k: nat)
    requires FenceAt(t, i) && FenceAt(t, k) && i + 3 <= k
    ensures t == t[..i] + ("```" + (t[i + 3..k] + ("```" + t[k + 3..])))
  {
    assert t[i..i + 3] == "```" && t[k..k + 3] == "```";
    assert t == t[..i] + t[i..i + 3] + t[i + 3..k] + t[k..k + 3] + t[k + 3..];
  }

  /** One formatted block, read back. */
  lemma UnformatBlock(pre: string, inner: string, f: string, rest: string)
    requires NoAngle(pre) && NoAngle(inner) && Unformat(f) == rest
    ensures Unformat(pre + ("<pre>" + (inner + ("</pre>" + f)))) == pre + ("```" + (inner + ("```" + rest)))
  {
    UnformatPlainPrefix(pre, "<pre>" + (inner + ("</pre>" + f)));
    UnformatOpenTag(inner + ("</pre>" + f));
    UnformatPlainPrefix(inner, "</pre>" + f);
    UnformatCloseTag(f);
  }

  /**
   * Formatting is undone by Unformat: on escaped text (which has no '<') the
   * <pre> tags are the only change, and the text between them is kept
   * exactly, still escaped.
   */
  lemma {:induction false} UnformatFormat(t: string)
    requires NoAngle(t)
    ensures Unformat(FormatCodeBlocks(t)) == t
    decreases |t|
  {
    match FindFence(t, 0)
    case None =>
      UnformatPlain(t);
    case Some(i) =>
      match FindFence(t, i + 3)
      case None =>
        UnformatPlain(t);
      case Some(k) =>
        NoAngleSuffix(t, k + 3);
        UnformatFormat(t[k + 3..]);
        UnformatFencedBlock(t, i, k, FormatCodeBlocks(t[k + 3..]));
  }

  /** Text with no '<' reads back as itself. */
  lemma UnformatPlain(t: string)
    requires NoAngle(t)
    ensures Unformat(t) == t
  {
    UnformatPlainPrefix(t, []);
    assert t + [] == t;
  }

  lemma NoAngleSuffix(t: string, from: nat)
    requires NoAngle(t) && from <= |t|
    ensures NoAngle(t[from..])
  {
  }

  /** The step of UnformatFormat for one fenced block, given the rest already read back. */
  lemma UnformatFencedBlock(t: string, i: nat, k: nat, f: string)
    requires NoAngle(t) && FenceAt(t, i) && FenceAt(t, k) && i + 3 <= k
    requires Unformat(f) == t[k + 3..]
    ensures Unformat(t[..i] + ("<pre>" + (t[i + 3..k] + ("</pre>" + f)))) == t
  {
    assert NoAngle(t[i + 3..k]) && NoAngle(t[..i]);
    UnformatBlock(t[..i], t[i + 3..k], f, t[k + 3..]);
    SplitAtFences(t, i, k);
  }

  /** `s` begins with one of `tags`. */
  predicate OpensTag(s: string, tags: seq<string>) {
    exists k | 0 <= k < |tags| :: StartsWith(s, tags[k])
  }

  /** Every '<' in `r` opens one of `tags`: there is no other markup in `r`. */
  predicate OnlyTags(r: string, tags: seq<string>) {
    forall j | 0 <= j < |r| && r[j] == '<' :: OpensTag(r[j..], tags)
  }

  const PreTags: seq<string> := ["<pre>", "</pre>"]
  const BubbleTags: seq<string> := ["<p>", "</p>", "<pre>", "</pre>"]

  lemma OnlyTagsConcat(a: string, b: string, tags: seq<string>)
    requires OnlyTags(a, tags) && OnlyTags(b, tags)
    ensures OnlyTags(a + b, tags)
  {
    var r := a + b;
    forall j | 0 <= j < |r| && r[j] == '<'
      ensures OpensTag(r[j..], tags)
    {
      if j < |a| {
        assert a[j] == '<';
        var k :| 0 <= k < |tags| && StartsWith(a[j..], tags[k]);
        assert r[j..] == a[j..] + b;
        StartsWithAppend(a[j..], b, tags[k]);
      } else {
        assert r[j..] == b[j - |a|..];
        assert b[j - |a|] == '<';
      }
    }
  }

  /** A tag on its own is markup made only of that tag. */
  lemma TagIsOnlyTags(tags: seq<string>, k: nat)
    requires k < |tags|
    requires forall j | 0 < j < |tags[k]| :: tags[k][j] != '<'
    ensures OnlyTags(tags[k], tags)
  {
    var t := tags[k];
    forall j | 0 <= j < |t| && t[j] == '<'
      ensures OpensTag(t[j..], tags)
    {
      if j == 0 {
        assert t[0..] == t;
        assert StartsWith(t[0..], tags[k]);
      }
    }
  }

  /** After escaping, the only markup FormatCodeBlocks can introduce is <pre> and </pre>. */
  lemma {:induction false} FormatOnlyAddsPreTags(t: string)
    requires NoAngle(t)
    ensures OnlyTags(FormatCodeBlocks(t), PreTags)
    decreases |t|
  {
    match FindFence(t, 0)
    case None =>
      PlainIsOnlyTags(t, PreTags);
    case Some(i) =>
      match FindFence(t, i + 3)
      case None =>
        PlainIsOnlyTags(t, PreTags);
      case Some(k) =>
        NoAngleSuffix(t, k + 3);
        FormatOnlyAddsPreTags(t[k + 3..]);
        FencedBlockOnlyTags(t, i, k, FormatCodeBlocks(t[k + 3..]));
  }

  /** Text with no '<' holds no markup at all. */
  lemma PlainIsOnlyTags(t: string, tags: seq<string>)
    requires NoAngle(t)
    ensures OnlyTags(t, tags)
  {
  }

  /** The step of FormatOnlyAddsPreTags for one fenced block, given the rest already formatted. */
  lemma FencedBlockOnlyTags(t: string, i: nat, k: nat, f: string)
    requires NoAngle(t) && i + 3 <= k <= |t|
    requires OnlyTags(f, PreTags)
    ensures OnlyTags(t[..i] + ("<pre>" + (t[i + 3..k] + ("</pre>" + f))), PreTags)
  {
    PlainIsOnlyTags(t[i + 3..k], PreTags);
    PlainIsOnlyTags(t[..i], PreTags);
    TagIsOnlyTags(PreTags, 0);
    TagIsOnlyTags(PreTags, 1);
    OnlyTagsConcat("</pre>", f, PreTags);
    OnlyTagsConcat(t[i + 3..k], "</pre>" + f, PreTags);
    OnlyTagsConcat("<pre>", t[i + 3..k] + ("</pre>" + f), PreTags);
    OnlyTagsConcat(t[..i], "<pre>" + (t[i + 3..k] + ("</pre>" + f)), PreTags);
  }

  /** Text without a pair of fences is left exactly as it is. */
  lemma FormatWithoutPairIsIdentity(t: string, i: nat)
    requires FenceAt(t, i) && forall j | 0 <= j < i :: !FenceAt(t, j)
    requires forall j | i + 3 <= j :: !FenceAt(t, j)
    ensures FormatCodeBlocks(t) == t
  {
  }

  /**
   * The pairing rule of the lazy, global replacement: when `a` is followed
   * by a fence, `b`, a fence and `c`, and no fence starts inside `a` or
   * inside `b` (the two backticks appended to each catch a fence that would
   * run into the following one), then `a` is copied, `b` becomes the first
   * <pre> block and the replacement goes on with `c`. So each block's content
   * and each gap before a block hold no fence: the first fence pairs with the
   * nearest one after it, never with a later one.
   */
  lemma FormatCodeBlocksPairs(a: string, b: string, c: string)
    requires NoFence(a + "``") && NoFence(b + "``")
    ensures FormatCodeBlocks(a + "```" + b + "```" + c) == a + "<pre>" + b + "</pre>" + FormatCodeBlocks(c)
  {
    var t := a + "```" + b + "```" + c;
    var i, k := |a|, |a| + 3 + |b|;
    assert FenceAt(t, i);
    forall j | 0 <= j < i ensures !FenceAt(t, j) {
      NoFenceBefore(a, t, j);
    }
    FindFenceIs(t, 0, i);
    assert FenceAt(t, k);
    forall j | i + 3 <= j < k ensures !FenceAt(t, j) {
      NoFenceBefore(b, t[i + 3..], j - (i + 3));
    }
    FindFenceIs(t, i + 3, k);
    assert t[..i] == a;
    assert t[i + 3..k] == b;
    assert t[k + 3..] == c;
  }

  /** A fence starting inside `x` within a text that begins with `x` and two backticks would be a fence of `x` + "``". */
  lemma NoFenceBefore(x: string, t: string, j: nat)
    requires NoFence(x + "``") && j < |x| && |x| + 2 <= |t| && t[..|x| + 2] == x + "``"
    ensures !FenceAt(t, j)
  {
    var y := x + "``";
    assert !FenceAt(y, j);
    assert t[j] == y[j] && t[j + 1] == y[j + 1] && t[j + 2] == y[j + 2] by {
      assert t[j] == t[..|x| + 2][j] && t[j + 1] == t[..|x| + 2][j + 1] && t[j + 2] == t[..|x| + 2][j + 2];
    }
  }

  /** FindFence returns the first fence at or after `from`. */
  lemma FindFenceIs(t: string, from: nat, i: nat)
    requires from <= i && FenceAt(t, i) && forall j | from <= j < i :: !FenceAt(t, j)
    ensures FindFence(t, from) == Some(i)
  {
  }

  // ---------------------------------------------------------------------
  // The bubble
  // ---------------------------------------------------------------------

  /** The markup of a message bubble's paragraph: `<p>` + formatted escaped text + `</p>`. */
  function Render(content: string): (html: string)
    ensures StartsWith(html, "<p>")
  {
    "<p>" + FormatCodeBlocks(Escape(content)) + "</p>"
  }

  lemma OnlyPreTagsInBubble(r: string)
    requires OnlyTags(r, PreTags)
    ensures OnlyTags(r, BubbleTags)
  {
    forall j | 0 <= j < |r| && r[j] == '<'
      ensures OpensTag(r[j..], BubbleTags)
    {
      var k :| 0 <= k < |PreTags| && StartsWith(r[j..], PreTags[k]);
      assert PreTags[k] == BubbleTags[k + 2];
    }
  }

  /**
   * Whatever the message text holds (a <script> element, say), its bubble
   * contains no markup but the <p> around it and the <pre> blocks of its
   * fenced spans.
   */
  lemma RenderIsInert(content: string)
    ensures OnlyTags(Render(content), BubbleTags)
  {
    var body := FormatCodeBlocks(Escape(content));
    FormatOnlyAddsPreTags(Escape(content));
    OnlyPreTagsInBubble(body);
    TagIsOnlyTags(BubbleTags, 0);
    TagIsOnlyTags(BubbleTags, 1);
    OnlyTagsConcat(body, "</p>", BubbleTags);
    OnlyTagsConcat("<p>", body + "</p>", BubbleTags);
    assert Render(content) == "<p>" + (body + "</p>");
  }

  /** The text a reader of the bubble gets back is exactly the message text. */
  lemma RenderRoundTrip(content: string)
    ensures var html := Render(content);
            |html| >= 7 && Unescape(Unformat(html[3..|html| - 4])) == content
  {
    var html := Render(content);
    var body := FormatCodeBlocks(Escape(content));
    assert html[3..|html| - 4] == body;
    UnformatFormat(Escape(content));
    UnescapeEscape(content);
  }
}
