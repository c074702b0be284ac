/**
 * The two image-link syntaxes of the notes and their conversion.
 *
 * A legacy vault link is `[[name.png]]`, found with the regular expression
 * `\[\[([^]]*\.png)\]\]`; a site link is `![alt](/images/name)`, found with
 * `!\[.*?\]\(/images/([^)]+)\)`. Both scanners below follow Python's `re.findall`:
 * matches are tried left to right, do not overlap, and a failed attempt moves one
 * character on.
 */
module ImageLinks {
  import opened Strings
  import opened Wrappers
  import opened Folders

  // ---------------------------------------------------------------------------------------
  // the legacy scanner

  /** The end of the run of non-`]` characters that starts at `j`. */
  function RunEnd(s: string, j: nat): (r: nat)
    requires j <= |s|
    ensures j <= r <= |s|
    ensures forall k :: j <= k < r ==> s[k] != ']'
    ensures r < |s| ==> s[r] == ']'
    decreases |s| - j
  {
    if j == |s| || s[j] == ']' then j else RunEnd(s, j + 1)
  }

  /**
   * A legacy link starts at the front of `s`: `[[`, then the whole run of non-`]`
   * characters, which ends in `.png`, then `]]`. Since the name cannot contain `]`,
   * backtracking gives the regular expression no other way to match.
   */
  predicate LegacyAtFront(s: string) {
    |s| >= 2 && s[0] == '[' && s[1] == '[' &&
    var r := RunEnd(s, 2);
    r + 2 <= |s| && s[r + 1] == ']' && EndsWith(s[2..r], ".png")
  }

  /** The names `re.findall(r'\[\[([^]]*\.png)\]\]', s)` returns. */
  function FindLegacy(s: string): (names: seq<string>)
    ensures forall i :: 0 <= i < |names| ==> EndsWith(names[i], ".png") && ']' !in names[i]
    decreases |s|
  {
    if |s| < 2 then []
    else if LegacyAtFront(s) then
      var r := RunEnd(s, 2);
      [s[2..r]] + FindLegacy(s[r + 2..])
    else FindLegacy(s[1..])
  }

  // ---------------------------------------------------------------------------------------
  // the site-link scanner

  const ImagesPrefix: string := "](/images/"

  /** The first index at or after `j` holding `c`, or `|s|`. */
  function FirstFrom(s: string, j: nat, c: char): (e: nat)
    requires j <= |s|
    ensures j <= e <= |s|
    ensures forall k :: j <= k < e ==> s[k] != c
    ensures e < |s| ==> s[e] == c
    decreases |s| - j
  {
    if j == |s| || s[j] == c then j else FirstFrom(s, j + 1, c)
  }

  /**
   * The lazy `.*?` of a site link whose `![` ended just before `j`: the first `j` from
   * which `](/images/`, a non-empty run of non-`)` characters and a `)` follow; `.` does
   * not cross a line break. Yields the name and the index after the closing `)`.
   */
  function MdFrom(s: string, j: nat): (m: Option<(string, nat)>)
    requires j <= |s|
    ensures m.Some? ==> j < m.value.1 <= |s| && |m.value.0| > 0 && ')' !in m.value.0
    decreases |s| - j
  {
    if StartsWith(s[j..], ImagesPrefix) && var e := FirstFrom(s, j + 10, ')'); j + 10 < e < |s|
    then
      var e := FirstFrom(s, j + 10, ')');
      Some((s[j + 10..e], e + 1))
    else if j < |s| && s[j] != '\n' then MdFrom(s, j + 1)
    else None
  }

  /** The names `re.findall(r'!\[.*?\]\(/images/([^)]+)\)', s)` returns. */
  function FindMarkdownImages(s: string): (names: seq<string>)
    ensures forall i :: 0 <= i < |names| ==> |names[i]| > 0 && ')' !in names[i]
    decreases |s|
  {
    if |s| < 2 then []
    else if s[0] == '!' && s[1] == '[' && MdFrom(s, 2).Some? then
      var e := MdFrom(s, 2).value.1;
      [MdFrom(s, 2).value.0] + FindMarkdownImages(s[e..])
    else FindMarkdownImages(s[1..])
  }

  // ---------------------------------------------------------------------------------------
  // the rewrite

  /** The legacy link text for a name. */
  function LegacyText(name: string): string {
    "[[" + name + "]]"
  }

  /**
   * The link a legacy link becomes: `![Image](/images/name)` when `bang`, and
   * `[Image](/images/name)` (a plain hyperlink) otherwise.
   */
  function LinkText(bang: bool, name: string): string {
    (if bang then "!" else "") + "[Image](/images/" + name + ")"
  }

  /**
   * The rewriter's loop over the found names: each name's every legacy occurrence is
   * replaced by the link to its underscored name.
   */
  function RewriteWith(content: string, names: seq<string>, bang: bool): string
    decreases |names|
  {
    if |names| == 0 then content
    else RewriteWith(ReplaceAll(content, LegacyText(names[0]), LinkText(bang, Underscore(names[0]))), names[1..], bang)
  }

  /** The text the rewriter returns for `content`. */
  function Rewrite(content: string, bang: bool): string {
    RewriteWith(content, FindLegacy(content), bang)
  }

  /** The site scanner recognises the `!` link the rewriter writes, with the name it was given. */
  lemma MarkdownFindsLink(name: string, rest: string)
    requires |name| > 0 && ')' !in name
    ensures FindMarkdownImages(LinkText(true, name) + rest) == [name] + FindMarkdownImages(rest)
  {
    var s := "![Image" + (ImagesPrefix + (name + (")" + rest)));
    LinkLayout(name, rest);
    MdAtLink(name, rest);
    MdSkipsLabel(s, 2);
    FindAtBang(s);
  }

  /** The lazy match started inside the label `Image` passes over the rest of it. */
  lemma {:induction false} MdSkipsLabel(s: string, j: nat)
    requires 2 <= j <= 7 && |s| > 7 && s[..7] == "![Image"
    ensures MdFrom(s, j) == MdFrom(s, 7)
    decreases 7 - j
  {
    if j < 7 {
      MdSkips(s, j);
      MdSkipsLabel(s, j + 1);
    }
  }

  /** A written link laid out as label, the images prefix, the name, `)` and what follows. */
  lemma LinkLayout(name: string, rest: string)
    ensures var s := "![Image" + (ImagesPrefix + (name + (")" + rest)));
      LinkText(true, name) + rest == s && |s| > 7 && s[..7] == "![Image" && s[18 + |name|..] == rest
      && s[0] == '!' && s[1] == '['
  {
    var s := "![Image" + (ImagesPrefix + (name + (")" + rest)));
    assert s[18 + |name|..] == rest by {
      assert s[7..] == ImagesPrefix + (name + (")" + rest));
      assert s[17..] == name + (")" + rest);
      assert s[17 + |name|..] == ")" + rest;
    }
  }

  /** At `![` followed by a site link, the scanner takes that link and continues after it. */
  lemma FindAtBang(s: string)
    requires |s| >= 2 && s[0] == '!' && s[1] == '[' && MdFrom(s, 2).Some?
    ensures FindMarkdownImages(s) == [MdFrom(s, 2).value.0] + FindMarkdownImages(s[MdFrom(s, 2).value.1..])
  {
  }

  /** After the label of a written link, the lazy match takes the link's name up to its `)`. */
  lemma MdAtLink(name: string, rest: string)
    requires |name| > 0 && ')' !in name
    ensures var s := "![Image" + (ImagesPrefix + (name + (")" + rest)));
      MdFrom(s, 7) == Some((name, 18 + |name|))
  {
    var tail := name + (")" + rest);
    var u := ImagesPrefix + tail;
    var s := "![Image" + u;
    assert s[7..] == u && u[..10] == ImagesPrefix;
    var e := 17 + |name|;
    assert forall k :: 17 <= k < e ==> s[k] == name[k - 17];
    assert s[e] == ')';
    assert FirstFrom(s, 17, ')') == e;
    assert s[17..e] == name;
  }

  /** A position holding neither `]` nor a line break is passed over by the lazy match. */
  lemma MdSkips(s: string, j: nat)
    requires j < 7 && |s| > 7 && s[..7] == "![Image"
    requires 2 <= j
    ensures MdFrom(s, j) == MdFrom(s, j + 1)
  {
    assert s[j] == "![Image"[j] && s[j] != ']' && s[j] != '\n';
    assert s[j..][0] == s[j];
  }

  // ---------------------------------------------------------------------------------------
  // notes read as pieces, for the idempotence of the rewrite

  /** No `[[` inside the text, and it does not end in `[`, so no `[[` spans its end either. */
  predicate NoDoubleOpen(t: string) {
    forall i :: 0 <= i < |t| && t[i] == '[' ==> i + 1 < |t| && t[i + 1] != '['
  }

  /**
   * A note as the legacy scanner reads it: single characters of plain text, legacy links
   * and site links. The names of legacy links contain no brackets; those of site links
   * no `[`.
   */
  datatype Piece = Plain(c: char) | Legacy(name: string) | Link(bang: bool, target: string)

  predicate WellFormedPiece(p: Piece) {
    match p
    case Plain(_) => true
    case Legacy(n) => '[' !in n && ']' !in n && EndsWith(n, ".png")
    case Link(_, n) => '[' !in n
  }

  predicate PiecesWellFormed(doc: seq<Piece>) {
    forall i :: 0 <= i < |doc| ==> WellFormedPiece(doc[i])
  }

  /** Well-formed pieces, and no legacy link starts at a plain character. */
  predicate WellFormed(doc: seq<Piece>) {
    PiecesWellFormed(doc) &&
    forall i :: 0 <= i < |doc| && doc[i].Plain? ==> !LegacyAtFront(Render(doc[i..]))
  }

  function RenderPiece(p: Piece): string {
    match p
    case Plain(c) => [c]
    case Legacy(n) => LegacyText(n)
    case Link(b, n) => LinkText(b, n)
  }

  function Render(doc: seq<Piece>): string
    decreases |doc|
  {
    if |doc| == 0 then "" else RenderPiece(doc[0]) + Render(doc[1..])
  }

  /** The names of the legacy pieces, in order. */
  function LegacyNames(doc: seq<Piece>): seq<string>
    decreases |doc|
  {
    if |doc| == 0 then []
    else (if doc[0].Legacy? then [doc[0].name] else []) + LegacyNames(doc[1..])
  }

  /** The pieces the legacy scanner sees in a text: each match, and every other character on its own. */
  function Parse(s: string): seq<Piece>
    decreases |s|
  {
    if |s| == 0 then []
    else if LegacyAtFront(s) then [Legacy(s[2..RunEnd(s, 2)])] + Parse(s[RunEnd(s, 2) + 2..])
    else [Plain(s[0])] + Parse(s[1..])
  }

  /** Every legacy piece named `name` turned into the link the rewriter writes for it. */
  function ConvertName(doc: seq<Piece>, name: string, bang: bool): (r: seq<Piece>)
    ensures |r| == |doc|
    decreases |doc|
  {
    if |doc| == 0 then []
    else
      (if doc[0] == Legacy(name) then [Link(bang, Underscore(name))] else [doc[0]])
      + ConvertName(doc[1..], name, bang)
  }

  /** The first piece of a well-formed document is well formed, and so is the rest. */
  lemma WellFormedTail(doc: seq<Piece>)
    requires |doc| > 0 && WellFormed(doc)
    ensures WellFormedPiece(doc[0]) && (doc[0].Plain? ==> !LegacyAtFront(Render(doc))) && WellFormed(doc[1..])
  {
    assert doc[0..] == doc;
    var t := doc[1..];
    forall i | 0 <= i < |t| ensures WellFormedPiece(t[i]) {
      assert t[i] == doc[i + 1];
    }
    forall i | 0 <= i < |t| && t[i].Plain? ensures !LegacyAtFront(Render(t[i..])) {
      assert t[i] == doc[i + 1] && t[i..] == doc[i + 1..];
    }
  }

  /** A well-formed first piece before a well-formed rest makes a well-formed document. */
  lemma WellFormedCons(doc: seq<Piece>)
    requires |doc| > 0 && WellFormed(doc[1..])
    requires WellFormedPiece(doc[0]) && (doc[0].Plain? ==> !LegacyAtFront(Render(doc)))
    ensures WellFormed(doc)
  {
    PiecesCons(doc);
    NoMatchCons(doc);
  }

  lemma PiecesCons(doc: seq<Piece>)
    requires |doc| > 0 && PiecesWellFormed(doc[1..]) && WellFormedPiece(doc[0])
    ensures PiecesWellFormed(doc)
  {
    forall i | 1 <= i < |doc| ensures WellFormedPiece(doc[i]) {
      assert doc[1..][i - 1] == doc[i];
    }
  }

  lemma NoMatchCons(doc: seq<Piece>)
    requires |doc| > 0 && (doc[0].Plain? ==> !LegacyAtFront(Render(doc)))
    requires forall i :: 0 <= i < |doc[1..]| && doc[1..][i].Plain? ==> !LegacyAtFront(Render(doc[1..][i..]))
    ensures forall i :: 0 <= i < |doc| && doc[i].Plain? ==> !LegacyAtFront(Render(doc[i..]))
  {
    assert doc[0..] == doc;
    forall i | 1 <= i < |doc| && doc[i].Plain? ensures !LegacyAtFront(Render(doc[i..])) {
      assert doc[1..][i - 1] == doc[i] && doc[1..][i - 1..] == doc[i..];
    }
  }

  // --- the run of a legacy match

  /** The run of non-`]` characters passes over a stretch without `]`. */
  lemma {:induction false} RunEndSkip(s: string, j: nat, k: nat)
    requires j <= k <= |s|
    requires forall i :: j <= i < k ==> s[i] != ']'
    ensures RunEnd(s, j) == RunEnd(s, k)
    decreases k - j
  {
    if j < k {
      RunEndSkip(s, j + 1, k);
    }
  }

  /** A suffix of the end of a text is a suffix of anything ending in that text. */
  lemma EndsWithAppend(a: string, m: string, x: string)
    requires EndsWith(m, x)
    ensures EndsWith(a + m, x)
  {
    assert (a + m)[|a + m| - |x|..] == m[|m| - |x|..];
  }

  /** An occurrence of a legacy link text with a well-formed name is a match of the scanner. */
  lemma OccurrenceIsLegacy(s: string, name: string)
    requires ']' !in name && EndsWith(name, ".png")
    ensures OccursAt(s, LegacyText(name), 0) ==> LegacyAtFront(s) && RunEnd(s, 2) == 2 + |name|
  {
    var pat := LegacyText(name);
    if OccursAt(s, pat, 0) {
      var e := 2 + |name|;
      assert s[..|pat|] == pat;
      forall k | 2 <= k < e ensures s[k] != ']' {
        assert s[k] == pat[k] == name[k - 2];
      }
      assert s[e] == pat[e] && s[e + 1] == pat[e + 1];
      RunEndSkip(s, 2, e);
      assert s[2..e] == pat[2..e] == name;
    }
  }

  /** A prefix that opens a legacy match: `[[`, then no `]`. */
  predicate OpenRun(pre: string) {
    |pre| >= 2 && pre[0] == '[' && pre[1] == '[' && forall k :: 2 <= k < |pre| ==> pre[k] != ']'
  }

  /** After an open prefix, the match is decided from the end of the prefix on. */
  lemma RunAfterOpen(pre: string, x: string)
    requires OpenRun(pre)
    ensures RunEnd(pre + x, 2) == RunEnd(pre + x, |pre|)
  {
    RunEndSkip(pre + x, 2, |pre|);
  }

  /** An open prefix followed by `]` is a match exactly when another `]` follows and the prefix's run ends in `.png`. */
  lemma OpenThenClose(pre: string, y: string)
    requires OpenRun(pre)
    ensures LegacyAtFront(pre + ("]" + y)) <==> |y| > 0 && y[0] == ']' && EndsWith(pre[2..], ".png")
  {
    var s := pre + ("]" + y);
    RunAfterOpen(pre, "]" + y);
    assert s[|pre|] == ']';
    assert |y| > 0 ==> s[|pre| + 1] == y[0];
    assert s[2..|pre|] == pre[2..];
  }

  /** An open prefix followed by a legacy link is a match, whose name holds the link's `[[`. */
  lemma OpenThenLegacy(pre: string, m: string, y: string)
    requires OpenRun(pre) && ']' !in m && EndsWith(m, ".png")
    ensures LegacyAtFront(pre + (LegacyText(m) + y))
  {
    var s := pre + (LegacyText(m) + y);
    var e := |pre| + 2 + |m|;
    RunAfterOpen(pre, LegacyText(m) + y);
    forall k | |pre| <= k < e ensures s[k] != ']' {
      if k >= |pre| + 2 {
        assert s[k] == m[k - |pre| - 2];
      }
    }
    assert s[e] == ']' && s[e + 1] == ']';
    RunEndSkip(s, |pre|, e);
    assert s[2..e] == (pre[2..] + "[[") + m;
    EndsWithAppend(pre[2..] + "[[", m, ".png");
  }

  /** An open prefix followed by a site link is no match: its label's `]` is followed by `(`. */
  lemma OpenThenLink(pre: string, b: bool, u: string, y: string)
    requires OpenRun(pre)
    ensures !LegacyAtFront(pre + (LinkText(b, u) + y))
  {
    var s := pre + (LinkText(b, u) + y);
    var t := LinkText(b, u);
    var o := if b then 1 else 0;
    var e := |pre| + o + 6;
    RunAfterOpen(pre, t + y);
    LinkLabel(b, u);
    forall k | |pre| <= k < e ensures s[k] != ']' {
      assert s[k] == t[k - |pre|];
    }
    assert s[e] == t[o + 6] && s[e + 1] == t[o + 7];
    RunEndSkip(s, |pre|, e);
  }

  /** A site link's label: `[Image]` after the optional `!`, then `(`. */
  lemma LinkLabel(b: bool, u: string)
    ensures var t := LinkText(b, u); var o := if b then 1 else 0;
      |t| >= o + 8 && t[o + 6] == ']' && t[o + 7] == '(' && forall k :: 0 <= k < o + 6 ==> t[k] != ']'
  {
    var t := LinkText(b, u);
    var o := if b then 1 else 0;
    assert t[o..o + 8] == "[Image](";
    forall k | 0 <= k < o + 6 ensures t[k] != ']' {
      if k >= o {
        assert t[k] == t[o..o + 8][k - o];
      } else {
        assert t[k] == '!';
      }
    }
  }

  /** A `[` before a legacy link is a match, whose name starts with `[`. */
  lemma BracketThenLegacy(m: string, y: string)
    requires ']' !in m && EndsWith(m, ".png")
    ensures LegacyAtFront("[" + (LegacyText(m) + y))
  {
    var s := "[" + (LegacyText(m) + y);
    assert s == "[[" + (("[" + m + "]]") + y);
    EndsWithAppend("[", m, ".png");
    OccurrenceIsLegacy(s, "[" + m);
    assert s[..|LegacyText("[" + m)|] == LegacyText("[" + m);
  }

  /** A `[` before a site link is no match. */
  lemma BracketThenLink(b: bool, u: string, y: string)
    ensures !LegacyAtFront("[" + (LinkText(b, u) + y))
  {
    var s := "[" + (LinkText(b, u) + y);
    var t := LinkText(b, u);
    if b {
      assert s[1] == t[0] == '!';
    } else {
      LinkLabel(b, u);
      forall k | 2 <= k < 7 ensures s[k] != ']' {
        assert s[k] == t[k - 1];
      }
      assert s[7] == t[6] && s[8] == t[7];
      RunEndSkip(s, 2, 7);
    }
  }

  // --- conversion creates no new match

  /** A converted document starts with `]` only where the original did. */
  lemma ConvertedStartsClose(doc: seq<Piece>, name: string, bang: bool)
    ensures var t := Render(ConvertName(doc, name, bang));
      |t| > 0 && t[0] == ']' ==> |Render(doc)| > 0 && Render(doc)[0] == ']'
  {
    if |doc| > 0 {
      var r := ConvertName(doc, name, bang);
      assert Render(r) == RenderPiece(r[0]) + Render(r[1..]);
      assert Render(doc) == RenderPiece(doc[0]) + Render(doc[1..]);
      if doc[0].Plain? {
        assert r[0] == doc[0];
      } else if r[0].Link? {
        assert RenderPiece(r[0])[0] == (if r[0].bang then '!' else '[');
      }
    }
  }

  /**
   * After an open prefix, a converted document completes a match only where the original
   * did: a legacy link in the run is itself a match, and a site link in its place stops it.
   */
  lemma {:induction false} OpenConverted(pre: string, doc: seq<Piece>, name: string, bang: bool)
    requires OpenRun(pre) && PiecesWellFormed(doc)
    ensures LegacyAtFront(pre + Render(ConvertName(doc, name, bang))) ==> LegacyAtFront(pre + Render(doc))
    decreases |doc|
  {
    if |doc| > 0 {
      var r := ConvertName(doc, name, bang);
      var y, y' := Render(doc[1..]), Render(ConvertName(doc[1..], name, bang));
      assert r[1..] == ConvertName(doc[1..], name, bang);
      assert Render(r) == RenderPiece(r[0]) + y';
      assert WellFormedPiece(doc[0]);
      match doc[0]
      case Plain(c) =>
        assert r[0] == doc[0];
        assert Render(doc) == [c] + y && Render(r) == [c] + y';
        if c != ']' {
          assert OpenRun(pre + [c]);
          PiecesTail(doc);
          OpenConverted(pre + [c], doc[1..], name, bang);
          PrefixGrows(pre, c, y);
          PrefixGrows(pre, c, y');
        } else {
          OpenThenClose(pre, y);
          OpenThenClose(pre, y');
          ConvertedStartsClose(doc[1..], name, bang);
        }
      case Legacy(m) =>
        OpenThenLegacy(pre, m, y);
      case Link(b, u) =>
        assert r[0] == doc[0];
        OpenThenLink(pre, b, u, y');
    }
  }

  lemma PrefixGrows(pre: string, c: char, y: string)
    ensures pre + ([c] + y) == (pre + [c]) + y
  {
  }

  /** Converting a name's legacy links creates no match at the front of the rendered note. */
  lemma NoNewMatch(doc: seq<Piece>, name: string, bang: bool)
    requires PiecesWellFormed(doc)
    ensures LegacyAtFront(Render(ConvertName(doc, name, bang))) ==> LegacyAtFront(Render(doc))
  {
    if |doc| > 0 {
      var r := ConvertName(doc, name, bang);
      var y, y' := Render(doc[1..]), Render(r[1..]);
      assert r[1..] == ConvertName(doc[1..], name, bang);
      assert Render(r) == RenderPiece(r[0]) + y';
      assert WellFormedPiece(doc[0]);
      match doc[0]
      case Legacy(m) =>
        FindLegacyAtLink(m, y);
      case Link(b, u) =>
        assert r[0] == doc[0];
        LinkNotAtFront(b, u, y');
      case Plain(c) =>
        assert r[0] == doc[0];
        if c == '[' {
          PiecesTail(doc);
          BracketConverted(doc[1..], name, bang);
        }
    }
  }

  lemma PiecesTail(doc: seq<Piece>)
    requires |doc| > 0 && PiecesWellFormed(doc)
    ensures WellFormedPiece(doc[0]) && PiecesWellFormed(doc[1..])
  {
    forall i | 0 <= i < |doc[1..]| ensures WellFormedPiece(doc[1..][i]) {
      assert doc[1..][i] == doc[i + 1];
    }
  }

  /** The first piece of a conversion: converted when it is a legacy link with that name, kept otherwise. */
  lemma ConvertCons(doc: seq<Piece>, name: string, bang: bool)
    requires |doc| > 0
    ensures var r := ConvertName(doc, name, bang);
      r[1..] == ConvertName(doc[1..], name, bang)
      && Render(r) == RenderPiece(r[0]) + Render(r[1..])
      && Render(doc) == RenderPiece(doc[0]) + Render(doc[1..])
      && r[0] == (if doc[0] == Legacy(name) then Link(bang, Underscore(name)) else doc[0])
  {
  }

  /** After a `[`, a converted document completes a match only where the original did. */
  lemma BracketConverted(doc: seq<Piece>, name: string, bang: bool)
    requires PiecesWellFormed(doc)
    ensures LegacyAtFront("[" + Render(ConvertName(doc, name, bang))) ==> LegacyAtFront("[" + Render(doc))
  {
    if |doc| > 0 {
      var r := ConvertName(doc, name, bang);
      ConvertCons(doc, name, bang);
      PiecesTail(doc);
      if doc[0] == Plain('[') {
        BracketBracket(doc, name, bang);
      } else if doc[0].Legacy? {
        BracketThenLegacy(doc[0].name, Render(doc[1..]));
      } else if r[0].Link? {
        BracketThenLink(r[0].bang, r[0].target, Render(r[1..]));
      } else {
        assert ("[" + Render(r))[1] == r[0].c != '[';
      }
    }
  }

  /** After `[[`, the conversion of the rest decides as the original would. */
  lemma BracketBracket(doc: seq<Piece>, name: string, bang: bool)
    requires |doc| > 0 && doc[0] == Plain('[') && PiecesWellFormed(doc[1..])
    ensures LegacyAtFront("[" + Render(ConvertName(doc, name, bang))) ==> LegacyAtFront("[" + Render(doc))
  {
    var r := ConvertName(doc, name, bang);
    ConvertCons(doc, name, bang);
    var x, x' := Render(doc[1..]), Render(r[1..]);
    OpenConverted("[[", doc[1..], name, bang);
    BracketPair(x);
    BracketPair(x');
  }

  lemma BracketPair(x: string)
    ensures "[" + ("[" + x) == "[[" + x
  {
  }

  /** A site link at the front of a text is no legacy match. */
  lemma LinkNotAtFront(b: bool, u: string, y: string)
    ensures !LegacyAtFront(LinkText(b, u) + y)
  {
    var t := LinkText(b, u);
    if !b {
      assert (t + y)[1] == t[1] == 'I';
    } else {
      assert (t + y)[0] == t[0] == '!';
    }
  }

  // --- the scanner and the replacement over pieces

  /** A match at the front is the legacy text of its name, followed by the rest. */
  lemma MatchLayout(s: string)
    requires LegacyAtFront(s)
    ensures var r := RunEnd(s, 2); s == LegacyText(s[2..r]) + s[r + 2..]
  {
    var r := RunEnd(s, 2);
    assert s[r] == ']' && s[r + 1] == ']';
    assert s == s[..2] + s[2..r] + s[r..r + 2] + s[r + 2..];
  }

  /** A plain character where no match starts is passed over by the scanner. */
  lemma FindLegacyPlain(c: char, rest: string)
    requires !LegacyAtFront([c] + rest)
    ensures FindLegacy([c] + rest) == FindLegacy(rest)
  {
    var s := [c] + rest;
    assert s[1..] == rest;
    if |s| < 2 {
      assert rest == "";
    }
  }

  /** The scanner reads a text back as its pieces. */
  lemma {:induction false} ParseRender(s: string)
    requires forall n :: n in FindLegacy(s) ==> '[' !in n
    ensures Render(Parse(s)) == s && LegacyNames(Parse(s)) == FindLegacy(s) && WellFormed(Parse(s))
    decreases |s|
  {
    if |s| > 0 {
      var doc := Parse(s);
      if LegacyAtFront(s) {
        var r := RunEnd(s, 2);
        var name := s[2..r];
        var rest := s[r + 2..];
        assert FindLegacy(s) == [name] + FindLegacy(rest);
        assert name in FindLegacy(s);
        ParseRender(rest);
        MatchLayout(s);
        assert doc[1..] == Parse(rest);
        WellFormedCons(doc);
      } else {
        var rest := s[1..];
        assert FindLegacy(s) == FindLegacy(rest);
        ParseRender(rest);
        assert s == [s[0]] + rest;
        assert doc[1..] == Parse(rest);
        WellFormedCons(doc);
      }
    }
  }

  lemma {:induction false} FindLegacySkip(x: string, y: string)
    requires NoDoubleOpen(x)
    ensures FindLegacy(x + y) == FindLegacy(y)
    decreases |x|
  {
    if |x| == 0 {
      assert x + y == y;
    } else {
      var s := x + y;
      assert s[1..] == x[1..] + y;
      assert NoDoubleOpen(x[1..]) by {
        forall i | 0 <= i < |x[1..]| && x[1..][i] == '['
          ensures i + 1 < |x[1..]| && x[1..][i + 1] != '['
        {
          assert x[i + 1] == '[';
        }
      }
      FindLegacySkip(x[1..], y);
      if |s| >= 2 {
        assert !LegacyAtFront(s) by {
          if x[0] == '[' {
            assert s[1] == x[1];
          }
        }
        assert FindLegacy(s) == FindLegacy(s[1..]);
      } else {
        assert |y| == 0 && FindLegacy(y) == [];
      }
    }
  }

  lemma FindLegacyAtLink(name: string, y: string)
    requires ']' !in name && EndsWith(name, ".png")
    ensures LegacyAtFront(LegacyText(name) + y)
    ensures FindLegacy(LegacyText(name) + y) == [name] + FindLegacy(y)
  {
    var s := LegacyText(name) + y;
    var r := 2 + |name|;
    assert s[2..r] == name;
    assert s[r] == ']' && s[r + 1] == ']';
    assert RunEnd(s, 2) == r;
    assert LegacyAtFront(s);
    assert s[r + 2..] == y;
  }

  lemma RenderedLinkNoDoubleOpen(b: bool, u: string)
    requires '[' !in u
    ensures NoDoubleOpen(LinkText(b, u))
  {
    var t := LinkText(b, u);
    var o := if b then 1 else 0;
    forall i | o + 16 <= i < o + 16 + |u| ensures t[i] != '[' {
      assert t[i] == u[i - o - 16];
    }
  }

  /** The legacy scanner finds exactly the legacy pieces of a well-formed document. */
  lemma {:induction false} FindLegacyRender(doc: seq<Piece>)
    requires WellFormed(doc)
    ensures FindLegacy(Render(doc)) == LegacyNames(doc)
    decreases |doc|
  {
    if |doc| > 0 {
      WellFormedTail(doc);
      FindLegacyRender(doc[1..]);
      var rest := Render(doc[1..]);
      match doc[0]
      case Plain(c) =>
        assert Render(doc) == [c] + rest;
        FindLegacyPlain(c, rest);
      case Legacy(n) =>
        FindLegacyAtLink(n, rest);
      case Link(b, u) =>
        RenderedLinkNoDoubleOpen(b, u);
        FindLegacySkip(LinkText(b, u), rest);
    }
  }

  /** No occurrence of a legacy link text can start inside a link piece other than that very link. */
  lemma NoOccurrenceInPiece(p: Piece, name: string, y: string)
    requires WellFormedPiece(p) && !p.Plain? && p != Legacy(name)
    requires '[' !in name && ']' !in name
    ensures forall i :: 0 <= i < |RenderPiece(p)| ==> !OccursAt(RenderPiece(p) + y, LegacyText(name), i)
  {
    if p.Legacy? {
      NoOccurrenceInLegacy(p.name, name, y);
    } else {
      NoOccurrenceInLink(p.bang, p.target, name, y);
    }
  }

  /** Inside the legacy link of another name, no occurrence of this name's legacy text starts. */
  lemma NoOccurrenceInLegacy(m: string, name: string, y: string)
    requires m != name && |m| > 0 && '[' !in m && ']' !in m && ']' !in name
    ensures forall i :: 0 <= i < |LegacyText(m)| ==> !OccursAt(LegacyText(m) + y, LegacyText(name), i)
  {
    var x := LegacyText(m);
    var s := x + y;
    var pat := LegacyText(name);
    forall i | 0 <= i < |x| ensures !OccursAt(s, pat, i) {
      // a position where `s` and the pattern disagree
      var k: nat;
      if i == 0 {
        if |name| < |m| {
          k := 2 + |name|;
        } else if |name| > |m| {
          k := 2 + |m|;
        } else {
          k := FirstDifference(m, name) + 2;
        }
      } else if i == 1 {
        k := 1;
      } else {
        k := 0;
      }
      if i + |pat| <= |s| {
        assert s[i + k] != pat[k];
        assert s[i..i + |pat|][k] == s[i + k];
      }
    }
  }

  /** Inside a site link, no legacy link text starts. */
  lemma NoOccurrenceInLink(b: bool, u: string, name: string, y: string)
    requires '[' !in u
    ensures forall i :: 0 <= i < |LinkText(b, u)| ==> !OccursAt(LinkText(b, u) + y, LegacyText(name), i)
  {
    var x := LinkText(b, u);
    var s := x + y;
    var pat := LegacyText(name);
    RenderedLinkNoDoubleOpen(b, u);
    forall i | 0 <= i < |x| ensures !OccursAt(s, pat, i) {
      var k := if x[i] == '[' then 1 else 0;
      if i + |pat| <= |s| {
        assert s[i + k] != pat[k];
        assert s[i..i + |pat|][k] == s[i + k];
      }
    }
  }

  /** The first index at which two different strings of one length differ. */
  function FirstDifference(a: string, b: string): (j: nat)
    requires |a| == |b| && a != b
    ensures j < |a| && a[j] != b[j]
    decreases |a|
  {
    if a[0] != b[0] then 0
    else
      assert a == [a[0]] + a[1..] && b == [b[0]] + b[1..];
      1 + FirstDifference(a[1..], b[1..])
  }

  /** Replacing one legacy link text in a rendered document converts the pieces with that name. */
  lemma {:induction false} ReplaceRender(doc: seq<Piece>, name: string, bang: bool)
    requires WellFormed(doc)
    requires '[' !in name && ']' !in name && EndsWith(name, ".png")
    ensures ReplaceAll(Render(doc), LegacyText(name), LinkText(bang, Underscore(name)))
         == Render(ConvertName(doc, name, bang))
    decreases |doc|
  {
    if |doc| > 0 {
      var pat := LegacyText(name);
      var rep := LinkText(bang, Underscore(name));
      var rest := Render(doc[1..]);
      WellFormedTail(doc);
      ReplaceRender(doc[1..], name, bang);
      if doc[0] == Legacy(name) {
        ReplaceAllFront(pat, rest, rep);
      } else if doc[0].Plain? {
        var x := [doc[0].c];
        OccurrenceIsLegacy(x + rest, name);
        ReplaceAllSkip(x, rest, pat, rep);
      } else {
        NoOccurrenceInPiece(doc[0], name, rest);
        ReplaceAllSkip(RenderPiece(doc[0]), rest, pat, rep);
      }
    } else {
      assert ReplaceAll("", LegacyText(name), LinkText(bang, Underscore(name))) == "";
    }
  }

  lemma {:induction false} ConvertNameWellFormed(doc: seq<Piece>, name: string, bang: bool)
    requires WellFormed(doc)
    ensures WellFormed(ConvertName(doc, name, bang))
    ensures LegacyNames(ConvertName(doc, name, bang)) == Without(LegacyNames(doc), name)
    decreases |doc|
  {
    if |doc| > 0 {
      WellFormedTail(doc);
      ConvertNameWellFormed(doc[1..], name, bang);
      var r := ConvertName(doc, name, bang);
      assert r[1..] == ConvertName(doc[1..], name, bang);
      var l := LegacyNames(doc);
      var l1 := LegacyNames(doc[1..]);
      if doc[0].Legacy? {
        assert l == [doc[0].name] + l1;
        assert l[1..] == l1;
      } else {
        assert l == l1;
      }
      if doc[0] == Legacy(name) {
        var u := Underscore(name);
        assert '[' !in u by {
          forall i | 0 <= i < |u| ensures u[i] != '[' {
            assert name[i] != '[';
          }
        }
      }
      NoNewMatch(doc, name, bang);
      WellFormedCons(r);
    }
  }

  /** The list with every occurrence of `x` removed. */
  function Without(xs: seq<string>, x: string): (r: seq<string>)
    ensures x !in r
    ensures forall y :: y in r <==> y in xs && y != x
    decreases |xs|
  {
    if |xs| == 0 then []
    else (if xs[0] == x then [] else [xs[0]]) + Without(xs[1..], x)
  }

  /** Removing a name from a list that has none is the identity. */
  lemma {:induction false} WithoutAbsent(xs: seq<string>, x: string)
    requires x !in xs
    ensures Without(xs, x) == xs
    decreases |xs|
  {
    if |xs| > 0 {
      WithoutAbsent(xs[1..], x);
      assert [xs[0]] + xs[1..] == xs;
    }
  }

  /**
   * The rewriter's loop over some names turns the legacy pieces with those names into
   * links and leaves every other piece alone: the rendered document stays well formed.
   */
  lemma {:induction false} RewriteWithRender(doc: seq<Piece>, names: seq<string>, bang: bool)
    requires WellFormed(doc)
    requires forall i :: 0 <= i < |names| ==> '[' !in names[i] && ']' !in names[i] && EndsWith(names[i], ".png")
    ensures exists d :: (WellFormed(d) && Render(d) == RewriteWith(Render(doc), names, bang)
      && (forall y :: y in LegacyNames(d) <==> y in LegacyNames(doc) && y !in names))
    decreases |names|
  {
    if |names| == 0 {
      assert WellFormed(doc) && Render(doc) == RewriteWith(Render(doc), names, bang);
    } else {
      var d1 := ConvertName(doc, names[0], bang);
      ReplaceRender(doc, names[0], bang);
      ConvertNameWellFormed(doc, names[0], bang);
      RewriteWithRender(d1, names[1..], bang);
      var d :| WellFormed(d) && Render(d) == RewriteWith(Render(d1), names[1..], bang)
        && (forall y :: y in LegacyNames(d) <==> y in LegacyNames(d1) && y !in names[1..]);
      assert Render(d) == RewriteWith(Render(doc), names, bang);
      forall y ensures y in LegacyNames(d) <==> y in LegacyNames(doc) && y !in names {
        assert y in names <==> y == names[0] || y in names[1..];
      }
    }
  }

  /**
   * On any note whose found legacy names hold no `[`, the rewrite leaves no legacy link
   * behind, so a second pass finds nothing, changes nothing and renames nothing.
   */
  lemma RewriteIdempotent(content: string, bang: bool, vault: Folder)
    requires forall n :: n in FindLegacy(content) ==> '[' !in n
    ensures var once := Rewrite(content, bang);
      FindLegacy(once) == [] && Rewrite(once, bang) == once
      && RenameAll(vault, FindLegacy(once)) == vault
  {
    var names := FindLegacy(content);
    var doc := Parse(content);
    ParseRender(content);
    assert forall i :: 0 <= i < |names| ==> names[i] in names;
    RewriteWithRender(doc, names, bang);
    var d :| WellFormed(d) && Render(d) == RewriteWith(content, names, bang)
      && (forall y :: y in LegacyNames(d) <==> y in LegacyNames(doc) && y !in names);
    FindLegacyRender(d);
    assert LegacyNames(d) == [] by {
      if |LegacyNames(d)| > 0 {
        HeadIsMember(LegacyNames(d));
        assert false;
      }
    }
  }

  lemma HeadIsMember(s: seq<string>)
    requires |s| > 0
    ensures s[0] in s
  {
  }
}
