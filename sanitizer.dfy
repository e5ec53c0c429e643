/**
 * The chat sanitiser `_remove_item_link`: item-link markup is rewritten to its
 * bracketed display name, then literal pipes ("||") are protected behind a pair
 * of NUL characters, every remaining "|" is dropped, and the protected pairs
 * are restored.
 *
 * The first step is the substitution of the one fixed regular expression
 *   \|(?:.*?)\|Hitem:(?:.*?)\|.\[([^\]]+)(?:\]\|.\|.)?
 * by "[\1]". The functions below spell out how a backtracking engine runs that
 * one pattern: the two lazy groups are tried shortest first, the outer one
 * before the inner one; `.` matches any character but a newline; the name group
 * is greedy and takes every character up to the next ']' (newlines included);
 * the optional closing markup is taken when it is there. Once the name group has
 * matched one character the rest of the pattern cannot fail, so the engine never
 * backtracks into it.
 */
module Sanitizer {
  import opened Options

  const NUL: char := '\0'
  const Nuls: string := [NUL, NUL]
  const ItemTag: string := "|Hitem:"

  // ---------------------------------------------------------------------
  // str.replace
  // ---------------------------------------------------------------------

  /** `s.replace(pat, rep)`: every occurrence of `pat`, found left to right and
      without overlap, is replaced by `rep`. */
  function Replace(s: string, pat: string, rep: string): (r: string)
    requires |pat| > 0
    ensures |rep| <= |pat| ==> |r| <= |s|
    ensures |rep| == |pat| ==> |r| == |s|
    decreases |s|
  {
    if |s| == 0 then []
    else if pat <= s then rep + Replace(s[|pat|..], pat, rep)
    else [s[0]] + Replace(s[1..], pat, rep)
  }

  /** Replacing a pattern whose first character does not occur changes nothing. */
  lemma {:induction false} ReplaceAbsent(s: string, pat: string, rep: string)
    requires |pat| > 0 && pat[0] !in s
    ensures Replace(s, pat, rep) == s
    decreases |s|
  {
    if |s| > 0 {
      assert s[0] != pat[0];
      assert s[1..] + [] == s[1..];
      ReplaceAbsent(s[1..], pat, rep);
    }
  }

  // ---------------------------------------------------------------------
  // The pipe normalisation
  // ---------------------------------------------------------------------

  function ProtectDoubled(s: string): string {
    Replace(s, "||", Nuls)
  }

  function StripPipes(s: string): string {
    Replace(s, "|", "")
  }

  function RestoreDoubled(s: string): string {
    Replace(s, Nuls, "||")
  }

  function NormalizePipes(s: string): (r: string)
    ensures |r| <= |s|
  {
    RestoreDoubled(StripPipes(ProtectDoubled(s)))
  }

  /** Reference definition: reading left to right, a "||" pair is kept as it is
      and any other "|" is deleted. */
  function KeepPairs(s: string): string
    decreases |s|
  {
    if |s| == 0 then []
    else if |s| >= 2 && s[0] == '|' && s[1] == '|' then "||" + KeepPairs(s[2..])
    else if s[0] == '|' then KeepPairs(s[1..])
    else [s[0]] + KeepPairs(s[1..])
  }

  /** Every pipe of `s` belongs to a pair, read left to right. */
  predicate PipesPaired(s: string)
    decreases |s|
  {
    if |s| == 0 then true
    else if s[0] == '|' then |s| >= 2 && s[1] == '|' && PipesPaired(s[2..])
    else PipesPaired(s[1..])
  }

  /** When a string starts with one or two given characters. */
  lemma StartsWith1(s: string, c: char)
    ensures [c] <= s <==> |s| > 0 && s[0] == c
  {
    if |s| > 0 {
      assert s[..1] == [s[0]];
    }
  }

  lemma StartsWith2(s: string, c: char, d: char)
    ensures [c, d] <= s <==> |s| > 1 && s[0] == c && s[1] == d
  {
    if |s| > 1 {
      assert s[..2] == [s[0], s[1]];
    }
  }

  lemma StripPipesCons(c: char, x: string)
    ensures StripPipes([c] + x) == if c == '|' then StripPipes(x) else [c] + StripPipes(x)
  {
    var s := [c] + x;
    assert s[1..] == x && s[0] == c;
    StartsWith1(s, '|');
  }

  lemma StripPipesNuls(x: string)
    ensures StripPipes(Nuls + x) == Nuls + StripPipes(x)
  {
    assert Nuls + x == [NUL] + ([NUL] + x);
    StripPipesCons(NUL, [NUL] + x);
    StripPipesCons(NUL, x);
  }

  lemma RestoreNuls(y: string)
    ensures RestoreDoubled(Nuls + y) == "||" + RestoreDoubled(y)
  {
    StartsWith2(Nuls + y, NUL, NUL);
    assert (Nuls + y)[2..] == y;
  }

  lemma RestoreCons(c: char, y: string)
    requires c != NUL
    ensures RestoreDoubled([c] + y) == [c] + RestoreDoubled(y)
  {
    var s := [c] + y;
    assert s[1..] == y && s[0] == c;
    StartsWith2(s, NUL, NUL);
  }

  /** For NUL-free input the three replacements keep each left-to-right "||"
      pair and delete every other pipe. */
  lemma {:induction false} NormalizePipesKeepsPairs(s: string)
    requires NUL !in s
    ensures NormalizePipes(s) == KeepPairs(s)
    decreases |s|
  {
    if |s| == 0 {
    } else if |s| >= 2 && s[0] == '|' && s[1] == '|' {
      var t := s[2..];
      StartsWith2(s, '|', '|');
      assert ProtectDoubled(s) == Nuls + ProtectDoubled(t);
      StripPipesNuls(ProtectDoubled(t));
      RestoreNuls(StripPipes(ProtectDoubled(t)));
      NormalizePipesKeepsPairs(t);
    } else {
      var t := s[1..];
      StartsWith2(s, '|', '|');
      assert ProtectDoubled(s) == [s[0]] + ProtectDoubled(t);
      StripPipesCons(s[0], ProtectDoubled(t));
      if s[0] != '|' {
        RestoreCons(s[0], StripPipes(ProtectDoubled(t)));
      }
      NormalizePipesKeepsPairs(t);
    }
  }

  /** The reference definition leaves only paired pipes. */
  lemma {:induction false} KeepPairsPaired(s: string)
    ensures PipesPaired(KeepPairs(s))
    decreases |s|
  {
    if |s| == 0 {
    } else if |s| >= 2 && s[0] == '|' && s[1] == '|' {
      KeepPairsPaired(s[2..]);
      assert ("||" + KeepPairs(s[2..]))[2..] == KeepPairs(s[2..]);
    } else if s[0] == '|' {
      KeepPairsPaired(s[1..]);
    } else {
      KeepPairsPaired(s[1..]);
      assert ([s[0]] + KeepPairs(s[1..]))[1..] == KeepPairs(s[1..]);
    }
  }

  /** Text without pipes and NULs passes the normalisation unchanged. */
  lemma NormalizePipesPlain(s: string)
    requires '|' !in s && NUL !in s
    ensures NormalizePipes(s) == s
  {
    ReplaceAbsent(s, "||", Nuls);
    ReplaceAbsent(s, "|", "");
    ReplaceAbsent(s, Nuls, "||");
  }

  // ---------------------------------------------------------------------
  // The item-link substitution
  // ---------------------------------------------------------------------

  /** One match of the item-link pattern at the start of a string: how many
      characters it spans and the display name it captured. */
  datatype LinkMatch = LinkMatch(len: nat, name: string)

  /** The greedy `[^\]]+` group from k: the end of the run of non-']' characters
      starting there. */
  function NameEnd(t: string, k: nat): (e: nat)
    requires k <= |t|
    ensures k <= e <= |t|
    ensures forall x :: k <= x < e ==> t[x] != ']'
    ensures e == |t| || t[e] == ']'
    decreases |t| - k
  {
    if k < |t| && t[k] != ']' then NameEnd(t, k + 1) else k
  }

  /** The optional closing markup `\]\|.\|.` at e. */
  predicate ClosingAt(t: string, e: nat) {
    e + 5 <= |t| && t[e] == ']' && t[e + 1] == '|' && t[e + 2] != '\n' && t[e + 3] == '|' && t[e + 4] != '\n'
  }

  /** The match once the name group starts at k. */
  function FinishLink(t: string, k: nat): (r: LinkMatch)
    requires k < |t| && t[k] != ']'
    ensures k < r.len <= |t| && k + |r.name| <= r.len
    ensures |r.name| > 0 && forall c :: c in r.name ==> c in t
  {
    var e := NameEnd(t, k);
    assert t[k..e][0] == t[k];
    assert forall c :: c in t[k..e] ==> c in t;
    LinkMatch(if ClosingAt(t, e) then e + 5 else e, t[k..e])
  }

  /** The lazy group after "|Hitem:": tries to go on with `\|.\[` at j, and
      otherwise consumes one more character that is not a newline. */
  function SearchName(t: string, j: nat): (r: Option<LinkMatch>)
    requires j <= |t|
    ensures r.Some? ==> j < r.value.len <= |t| && j + 3 + |r.value.name| <= r.value.len
    ensures r.Some? ==> forall c :: c in r.value.name ==> c in t
    decreases |t| - j
  {
    if j + 3 < |t| && t[j] == '|' && t[j + 1] != '\n' && t[j + 2] == '[' && t[j + 3] != ']' then
      Some(FinishLink(t, j + 3))
    else if j < |t| && t[j] != '\n' then SearchName(t, j + 1)
    else None
  }

  /** "|Hitem:" stands at i. */
  predicate TagAt(t: string, i: nat) {
    i + |ItemTag| <= |t| && forall x :: 0 <= x < |ItemTag| ==> t[i + x] == ItemTag[x]
  }

  /** The lazy group after the leading '|': tries to go on with "|Hitem:" at i,
      and otherwise consumes one more character that is not a newline. */
  function SearchTag(t: string, i: nat): (r: Option<LinkMatch>)
    requires i <= |t|
    ensures r.Some? ==> i < r.value.len <= |t| && i + |ItemTag| + 3 + |r.value.name| <= r.value.len
    ensures r.Some? ==> forall c :: c in r.value.name ==> c in t
    decreases |t| - i
  {
    var rest := if TagAt(t, i) then SearchName(t, i + |ItemTag|) else None;
    if rest.Some? then rest
    else if i < |t| && t[i] != '\n' then SearchTag(t, i + 1)
    else None
  }

  /** The pattern tried at the start of t. */
  function MatchLink(t: string): (r: Option<LinkMatch>)
    ensures r.Some? ==> 0 < r.value.len <= |t| && t[0] == '|' && |r.value.name| + 2 <= r.value.len
    ensures r.Some? ==> forall c :: c in r.value.name ==> c in t
  {
    if |t| > 0 && t[0] == '|' then SearchTag(t, 1) else None
  }

  /** `re.sub(pattern, r'[\1]', t)`: the leftmost match is replaced, and the
      scan goes on after it. */
  function RewriteItemLinks(t: string): (r: string)
    ensures |r| <= |t|
    decreases |t|
  {
    if |t| == 0 then []
    else match MatchLink(t)
      case Some(m) => "[" + m.name + "]" + RewriteItemLinks(t[m.len..])
      case None => [t[0]] + RewriteItemLinks(t[1..])
  }

  /** The full sanitiser. */
  function Sanitize(msg: string): (r: string)
    ensures |r| <= |msg|
  {
    NormalizePipes(RewriteItemLinks(msg))
  }

  /** Without a pipe the pattern cannot match. */
  lemma {:induction false} RewriteNoPipe(t: string)
    requires '|' !in t
    ensures RewriteItemLinks(t) == t
    decreases |t|
  {
    if |t| > 0 {
      assert t[0] != '|';
      RewriteNoPipe(t[1..]);
      assert [t[0]] + t[1..] == t;
    }
  }

  /** The item tag "|Hitem:" occurs nowhere in t. */
  predicate NoItemTag(t: string) {
    forall i :: 0 <= i <= |t| ==> !TagAt(t, i)
  }

  lemma {:induction false} SearchTagNoTag(t: string, i: nat)
    requires NoItemTag(t) && i <= |t|
    ensures SearchTag(t, i) == None
    decreases |t| - i
  {
    if i < |t| {
      SearchTagNoTag(t, i + 1);
    }
  }

  /** Without the item tag the pattern cannot match, so the rewrite copies the
      text through. */
  lemma {:induction false} RewriteNoTag(t: string)
    requires NoItemTag(t)
    ensures RewriteItemLinks(t) == t
    decreases |t|
  {
    if |t| > 0 {
      SearchTagNoTag(t, 1);
      assert MatchLink(t) == None;
      var u := t[1..];
      forall i | 0 <= i <= |u|
        ensures !TagAt(u, i)
      {
        if TagAt(u, i) {
          forall x | 0 <= x < |ItemTag|
            ensures t[i + 1 + x] == ItemTag[x]
          {
            assert u[i + x] == t[i + 1 + x];
          }
          assert TagAt(t, i + 1);
        }
      }
      RewriteNoTag(u);
      assert [t[0]] + u == t;
    }
  }

  /** Text without a pipe in front of the rest is copied through. */
  lemma {:induction false} RewritePlainPrefix(p: string, t: string)
    requires '|' !in p
    ensures RewriteItemLinks(p + t) == p + RewriteItemLinks(t)
    decreases |p|
  {
    if |p| > 0 {
      var s := p + t;
      assert s[0] == p[0] && p[0] != '|';
      assert MatchLink(s) == None;
      assert s[1..] == p[1..] + t;
      RewritePlainPrefix(p[1..], t);
      assert RewriteItemLinks(s) == [p[0]] + (p[1..] + RewriteItemLinks(t));
      assert [p[0]] + (p[1..] + RewriteItemLinks(t)) == ([p[0]] + p[1..]) + RewriteItemLinks(t);
      assert [p[0]] + p[1..] == p;
    } else {
      assert p + t == t;
    }
  }

  /** A character absent from the input, other than a bracket, is absent from
      the rewritten text. */
  lemma {:induction false} RewriteKeepsAbsent(t: string, c: char)
    requires c !in t && c != '[' && c != ']'
    ensures c !in RewriteItemLinks(t)
    decreases |t|
  {
    if |t| > 0 {
      match MatchLink(t)
      case Some(m) =>
        RewriteKeepsAbsent(t[m.len..], c);
      case None =>
        RewriteKeepsAbsent(t[1..], c);
    }
  }

  /** The item-link markup the game client produces:
      |c<colour>|Hitem:<payload>|h[<name>]|h|r. */
  function ItemLink(colour: string, payload: string, name: string): string {
    "|c" + (colour + (ItemTag + (payload + ("|h[" + (name + "]|h|r")))))
  }

  predicate WellFormedLink(colour: string, payload: string, name: string) {
    '|' !in colour && '\n' !in colour && '|' !in payload && '\n' !in payload && |name| > 0 && ']' !in name
  }

  /** The part of the pattern from "|Hitem:" on, with the tag at a: a second
      lazy group up to "|" at j that holds no '|' or newline, one more
      character, '[', the name, and the closing markup. */
  predicate TagThenName(t: string, a: nat, j: nat, name: string) {
    && a + |ItemTag| <= j && j + 8 + |name| <= |t|
    && |name| > 0 && ']' !in name
    && TagAt(t, a)
    && (forall x :: a + |ItemTag| <= x < j ==> t[x] != '|' && t[x] != '\n')
    && t[j] == '|' && t[j + 1] != '\n' && t[j + 2] == '['
    && t[j + 3..j + 3 + |name|] == name
    && ClosingAt(t, j + 3 + |name|)
  }

  /** The shape the pattern needs in t: the leading '|', a first lazy group up
      to "|Hitem:" at a that holds no '|' or newline, and the rest of the
      pattern from there. */
  predicate LinkShape(t: string, a: nat, j: nat, name: string) {
    && 1 <= a && TagThenName(t, a, j, name)
    && t[0] == '|'
    && (forall x :: 1 <= x < a ==> t[x] != '|' && t[x] != '\n')
  }

  /** From i up to k, no newline stops the first lazy group and "|Hitem:"
      does not stand, so the group steps on. */
  predicate Unstopped(t: string, i: nat, k: nat) {
    && (forall x :: i <= x < k <= |t| ==> t[x] != '\n')
    && (forall x :: i <= x < k <= |t| ==> !TagAt(t, x))
  }

  /** The first lazy group steps over every position that is not a newline
      and where "|Hitem:" does not stand. */
  lemma {:induction false} SearchTagPasses(t: string, i: nat, k: nat)
    requires i <= k <= |t| && Unstopped(t, i, k)
    ensures SearchTag(t, i) == SearchTag(t, k)
    decreases k - i
  {
    if i < k {
      SearchTagPasses(t, i + 1, k);
    }
  }

  lemma {:induction false} SearchTagSkips(t: string, i: nat, k: nat)
    requires i <= k <= |t|
    requires forall x :: i <= x < k ==> t[x] != '|' && t[x] != '\n'
    ensures SearchTag(t, i) == SearchTag(t, k)
    decreases k - i
  {
    if i < k {
      assert !TagAt(t, i) by {
        assert ItemTag[0] == '|';
        if i + |ItemTag| <= |t| {
          assert t[i + 0] != ItemTag[0];
        }
      }
      SearchTagSkips(t, i + 1, k);
    }
  }

  lemma {:induction false} SearchNameSkips(t: string, j: nat, k: nat)
    requires j <= k <= |t|
    requires forall x :: j <= x < k ==> t[x] != '|' && t[x] != '\n'
    ensures SearchName(t, j) == SearchName(t, k)
    decreases k - j
  {
    if j < k {
      SearchNameSkips(t, j + 1, k);
    }
  }

  /** A display name followed by the closing markup is captured whole, and the
      match ends after the closing markup. */
  lemma FinishWholeName(t: string, k: nat, name: string)
    requires |name| > 0 && ']' !in name
    requires k + |name| < |t|
    requires t[k..k + |name|] == name && ClosingAt(t, k + |name|)
    ensures k < |t| && t[k] != ']'
    ensures FinishLink(t, k) == LinkMatch(k + |name| + 5, name)
  {
    var e := k + |name|;
    assert t[k] == name[0] && name[0] in name;
    forall x | k <= x < e
      ensures t[x] != ']'
    {
      assert t[x] == name[x - k] && name[x - k] in name;
    }
    assert NameEnd(t, k) == e;
  }

  lemma SearchNameFound(t: string, j: nat)
    requires j + 3 < |t| && t[j] == '|' && t[j + 1] != '\n' && t[j + 2] == '[' && t[j + 3] != ']'
    ensures SearchName(t, j) == Some(FinishLink(t, j + 3))
  {
  }

  /** Once the first lazy group has reached a position from which the rest of
      the pattern fits, the search ends with the match it describes. */
  lemma SearchFromTag(t: string, i: nat, a: nat, j: nat, name: string)
    requires i <= a && TagThenName(t, a, j, name)
    requires Unstopped(t, i, a)
    ensures SearchTag(t, i) == Some(LinkMatch(j + 8 + |name|, name))
  {
    FinishWholeName(t, j + 3, name);
    SearchNameFound(t, j);
    SearchNameSkips(t, a + |ItemTag|, j);
    assert SearchTag(t, a) == SearchName(t, a + |ItemTag|);
    SearchTagPasses(t, i, a);
  }

  /** The pattern matches a string of that shape, spanning it up to the end of
      the closing markup and capturing exactly the name. */
  lemma MatchShape(t: string, a: nat, j: nat, name: string)
    requires LinkShape(t, a, j, name)
    ensures MatchLink(t) == Some(LinkMatch(j + 8 + |name|, name))
  {
    SearchTagSkips(t, 1, a);
    SearchFromTag(t, a, a, j, name);
  }

  /** The tail of the pattern keeps its shape behind any prefix. */
  lemma TagThenNameShift(p: string, s: string, a: nat, j: nat, name: string)
    requires TagThenName(s, a, j, name)
    ensures TagThenName(p + s, |p| + a, |p| + j, name)
  {
    var t := p + s;
    forall x | 0 <= x < |ItemTag|
      ensures t[|p| + a + x] == ItemTag[x]
    {
      assert t[|p| + a + x] == s[a + x];
    }
    forall x | |p| + a + |ItemTag| <= x < |p| + j
      ensures t[x] != '|' && t[x] != '\n'
    {
      assert t[x] == s[x - |p|];
    }
    var k := j + 3;
    assert t[|p| + k..|p| + k + |name|] == s[k..k + |name|];
    var e := k + |name|;
    assert t[|p| + e] == s[e] && t[|p| + e + 1] == s[e + 1] && t[|p| + e + 2] == s[e + 2];
    assert t[|p| + e + 3] == s[e + 3] && t[|p| + e + 4] == s[e + 4];
    assert t[|p| + j] == s[j] && t[|p| + j + 1] == s[j + 1] && t[|p| + j + 2] == s[j + 2];
  }

  lemma ItemLinkHead(colour: string, payload: string, name: string, rest: string)
    requires '|' !in colour && '\n' !in colour
    ensures var t := ItemLink(colour, payload, name) + rest;
            var a := 2 + |colour|;
            t[0] == '|' &&
            (forall x :: 1 <= x < a ==> t[x] != '|' && t[x] != '\n') &&
            TagAt(t, a)
  {
    var l2 := ItemTag + (payload + ("|h[" + (name + "]|h|r")));
    var link := "|c" + (colour + l2);
    var t := link + rest;
    var a := 2 + |colour|;
    forall x | 1 <= x < a
      ensures t[x] != '|' && t[x] != '\n'
    {
      if x >= 2 {
        assert t[x] == colour[x - 2] && colour[x - 2] in colour;
      }
    }
    forall x | 0 <= x < |ItemTag|
      ensures t[a + x] == ItemTag[x]
    {
      assert t[a + x] == l2[x];
    }
  }

  lemma ItemLinkTail(colour: string, payload: string, name: string, rest: string)
    requires '|' !in payload && '\n' !in payload
    ensures var t := ItemLink(colour, payload, name) + rest;
            var a := 2 + |colour|;
            var j := a + |ItemTag| + |payload|;
            var k := j + 3;
            |t| == k + |name| + 5 + |rest| &&
            (forall x :: a + |ItemTag| <= x < j ==> t[x] != '|' && t[x] != '\n') &&
            t[j] == '|' && t[j + 1] == 'h' && t[j + 2] == '[' &&
            t[k..k + |name|] == name &&
            ClosingAt(t, k + |name|)
  {
    var l4 := "|h[" + (name + "]|h|r");
    var link := "|c" + (colour + (ItemTag + (payload + l4)));
    var t := link + rest;
    var a := 2 + |colour|;
    var j := a + |ItemTag| + |payload|;
    var k := j + 3;
    var e := k + |name|;
    forall x | a + |ItemTag| <= x < j
      ensures t[x] != '|' && t[x] != '\n'
    {
      assert t[x] == payload[x - a - |ItemTag|] && payload[x - a - |ItemTag|] in payload;
    }
    assert t[j] == l4[0] && t[j + 1] == l4[1] && t[j + 2] == l4[2];
    forall x | 0 <= x < |name|
      ensures t[k + x] == name[x]
    {
      assert t[k + x] == l4[3 + x];
    }
    assert t[k..e] == name;
    assert t[e] == l4[3 + |name|] && t[e + 1] == l4[4 + |name|] && t[e + 2] == l4[5 + |name|];
    assert t[e + 3] == l4[6 + |name|] && t[e + 4] == l4[7 + |name|];
  }

  /** The parts of a well-formed item link, followed by anything, that the
      pattern consumes. */
  lemma LinkParts(colour: string, payload: string, name: string, rest: string)
    requires WellFormedLink(colour, payload, name)
    ensures var s := ItemLink(colour, payload, name) + rest;
            var a := 2 + |colour|;
            var j := a + |ItemTag| + |payload|;
            && TagThenName(s, a, j, name)
            && s[0] == '|' && s[1] == 'c'
            && (forall x :: 1 <= x < a ==> s[x] != '|' && s[x] != '\n')
            && |ItemLink(colour, payload, name)| == j + 8 + |name|
  {
    ItemLinkHead(colour, payload, name, rest);
    ItemLinkTail(colour, payload, name, rest);
  }


  /** A well-formed item link matches as a whole, whatever follows it, and its
      match captures exactly the display name. */
  lemma MatchWholeLink(colour: string, payload: string, name: string, rest: string)
    requires WellFormedLink(colour, payload, name)
    ensures MatchLink(ItemLink(colour, payload, name) + rest) == Some(LinkMatch(|ItemLink(colour, payload, name)|, name))
  {
    LinkParts(colour, payload, name, rest);
    var a := 2 + |colour|;
    MatchShape(ItemLink(colour, payload, name) + rest, a, a + |ItemTag| + |payload|, name);
  }

  /** A '|' followed by 'H' stands at x, where "|Hitem:" could begin. */
  predicate PipeH(y: string, x: nat)
    requires x + 1 < |y|
  {
    y[x] == '|' && y[x + 1] == 'H'
  }

  /** "|Hitem:" does not stand where there is no '|', or where the '|' is not
      followed by 'H'. */
  lemma NotTagAt(t: string, x: nat)
    requires x + 1 < |t| && (t[x] != '|' || t[x + 1] != 'H')
    ensures !TagAt(t, x)
  {
    assert ItemTag[0] == '|' && ItemTag[1] == 'H';
  }

  /** Behind "|" + y, in front of an item link s whose first lazy group ends
      at a, there is no place where "|Hitem:" stands and no newline. */
  lemma NoTagBefore(y: string, s: string, a: nat)
    requires '\n' !in y
    requires forall x :: 0 <= x < |y| - 1 ==> !PipeH(y, x)
    requires 2 <= a < |s| && s[0] == '|' && s[1] == 'c'
    requires forall x :: 1 <= x < a ==> s[x] != '|' && s[x] != '\n'
    ensures Unstopped(("|" + y) + s, 1, |"|" + y| + a)
  {
    var p := "|" + y;
    var t := p + s;
    forall x | 1 <= x < |p| + a
      ensures t[x] != '\n' && !TagAt(t, x)
    {
      if x < |p| {
        assert t[x] == y[x - 1] && y[x - 1] in y;
        if x < |y| {
          assert !PipeH(y, x - 1);
          assert t[x + 1] == y[x];
        } else {
          assert t[x + 1] == s[0];
        }
      } else {
        assert t[x] == s[x - |p|] && t[x + 1] == s[x + 1 - |p|];
      }
      NotTagAt(t, x);
    }
  }

  /** A match tried at the leading '|' runs on to the first place where the
      rest of the pattern fits, provided no newline and no "|Hitem:" comes
      sooner. */
  lemma RunsToTag(t: string, a: nat, j: nat, name: string, len: nat)
    requires 1 <= a && TagThenName(t, a, j, name) && t[0] == '|'
    requires Unstopped(t, 1, a)
    requires len == j + 8 + |name|
    ensures MatchLink(t) == Some(LinkMatch(len, name))
  {
    SearchFromTag(t, 1, a, j, name);
  }

  /** The first lazy group is not stopped by a pipe, only by a newline. A match
      tried at an earlier '|' on the same line therefore runs on through a
      whole link s, as long as no pipe in between is followed by 'H' (where
      the pattern could try "|Hitem:" sooner). */
  lemma PipeBeforeLink(y: string, s: string, a: nat, j: nat, name: string)
    requires '\n' !in y
    requires forall x :: 0 <= x < |y| - 1 ==> !PipeH(y, x)
    requires 2 <= a && LinkShape(s, a, j, name) && s[1] == 'c'
    ensures MatchLink(("|" + y) + s) == Some(LinkMatch(1 + |y| + j + 8 + |name|, name))
  {
    var p := "|" + y;
    TagThenNameShift(p, s, a, j, name);
    NoTagBefore(y, s, a);
    RunsToTag(p + s, |p| + a, |p| + j, name, 1 + |y| + j + 8 + |name|);
  }

  /** In particular, a pipe earlier on the line swallows the text between it
      and a well-formed item link. */
  lemma EarlierPipeSwallows(y: string, colour: string, payload: string, name: string, rest: string)
    requires WellFormedLink(colour, payload, name)
    requires '\n' !in y
    requires forall x :: 0 <= x < |y| - 1 ==> !PipeH(y, x)
    ensures MatchLink(("|" + y) + (ItemLink(colour, payload, name) + rest))
            == Some(LinkMatch(1 + |y| + |ItemLink(colour, payload, name)|, name))
  {
    LinkParts(colour, payload, name, rest);
    var a := 2 + |colour|;
    PipeBeforeLink(y, ItemLink(colour, payload, name) + rest, a, a + |ItemTag| + |payload|, name);
  }

  /** A well-formed item link is replaced by its bracketed display name, and the
      scan resumes right after it. */
  lemma RewriteLink(colour: string, payload: string, name: string, rest: string)
    requires WellFormedLink(colour, payload, name)
    ensures RewriteItemLinks(ItemLink(colour, payload, name) + rest) == "[" + name + "]" + RewriteItemLinks(rest)
  {
    var t := ItemLink(colour, payload, name) + rest;
    MatchWholeLink(colour, payload, name, rest);
    assert t[|ItemLink(colour, payload, name)|..] == rest;
  }

  /** A message without pipes and NULs is returned unchanged. */
  lemma SanitizePlain(msg: string)
    requires '|' !in msg && NUL !in msg
    ensures Sanitize(msg) == msg
  {
    RewriteNoPipe(msg);
    NormalizePipesPlain(msg);
  }

  /** For NUL-free input, what is left after the item-link rewrite keeps its
      "||" pairs and loses every other pipe, so every pipe of the result is
      paired. */
  lemma SanitizeKeepsPairs(msg: string)
    requires NUL !in msg
    ensures Sanitize(msg) == KeepPairs(RewriteItemLinks(msg))
    ensures PipesPaired(Sanitize(msg))
  {
    RewriteKeepsAbsent(msg, NUL);
    NormalizePipesKeepsPairs(RewriteItemLinks(msg));
    KeepPairsPaired(RewriteItemLinks(msg));
  }

  /** Plain text around one well-formed item link: the link becomes its
      bracketed name and the text around it is kept. The text before the link
      must be pipe-free: a pipe earlier on the same line starts a match that
      swallows everything up to the link (see EarlierPipeSwallows and
      PairBeforeLinkLost). */
  lemma SanitizeOneLink(before: string, colour: string, payload: string, name: string, after: string)
    requires WellFormedLink(colour, payload, name)
    requires '|' !in before && '|' !in name && '|' !in after
    requires NUL !in before && NUL !in name && NUL !in after
    ensures Sanitize(before + ItemLink(colour, payload, name) + after) == before + "[" + name + "]" + after
  {
    var link := ItemLink(colour, payload, name);
    assert before + link + after == before + (link + after);
    RewritePlainPrefix(before, link + after);
    RewriteLink(colour, payload, name, after);
    RewriteNoPipe(after);
    var out := before + "[" + name + "]" + after;
    assert before + ("[" + name + "]" + after) == out;
    NormalizePipesPlain(out);
  }

  /** A doubled pipe earlier on the same line as an item link is lost, and so
      is the text between it and the link: the match starts at the first of
      the two pipes and runs through the link. Only the pipe-free text before
      the pair and the bracketed name remain. */
  lemma PairBeforeLinkLost(x: string, y: string, colour: string, payload: string, name: string)
    requires WellFormedLink(colour, payload, name)
    requires '|' !in x && NUL !in x && '|' !in name && NUL !in name
    requires '|' !in y && '\n' !in y && (|y| > 0 ==> y[0] != 'H')
    ensures Sanitize(x + "||" + y + ItemLink(colour, payload, name)) == x + "[" + name + "]"
  {
    var link := ItemLink(colour, payload, name);
    var y' := "|" + y;
    var u := ("|" + y') + (link + "");
    assert x + "||" + y + link == x + u;
    forall i | 1 <= i < |y'|
      ensures y'[i] != '|'
    {
      assert y'[i] == y[i - 1] && y[i - 1] in y;
    }
    forall i | 0 <= i < |y'| - 1
      ensures !PipeH(y', i)
    {
      assert y'[i + 1] == y[i];
    }
    EarlierPipeSwallows(y', colour, payload, name, "");
    RewritePlainPrefix(x, u);
    assert u[|u|..] == "";
    var out := x + "[" + name + "]";
    assert x + ("[" + name + "]" + RewriteItemLinks("")) == out;
    NormalizePipesPlain(out);
  }

  /** A message that is just one well-formed item link becomes its bracketed
      display name. */
  lemma SanitizeLink(colour: string, payload: string, name: string)
    requires WellFormedLink(colour, payload, name)
    requires '|' !in name && NUL !in name
    ensures Sanitize(ItemLink(colour, payload, name)) == "[" + name + "]"
  {
    var link := ItemLink(colour, payload, name);
    RewriteLink(colour, payload, name, "");
    assert link + "" == link;
    assert "[" + name + "]" + "" == "[" + name + "]";
    NormalizePipesPlain("[" + name + "]");
  }

  /** The parts of the sword link below satisfy the link's conditions. */
  lemma SwordColourClean()
    ensures '|' !in "ffffffff" && '\n' !in "ffffffff"
  {
  }

  lemma SwordPayloadClean()
    ensures '|' !in "1234:0:0:0:0:0:0:0:0:0" && '\n' !in "1234:0:0:0:0:0:0:0:0:0"
  {
  }

  lemma SwordNameClean()
    ensures ']' !in "Sword of Testing" && '|' !in "Sword of Testing" && NUL !in "Sword of Testing"
  {
  }

  lemma SwordBracketed()
    ensures "[" + "Sword of Testing" + "]" == "[Sword of Testing]"
  {
  }

  /** The item link a client sends for a sword,
      |cffffffff|Hitem:1234:0:0:0:0:0:0:0:0:0|h[Sword of Testing]|h|r,
      comes out as its bracketed name. */
  lemma SwordLink()
    ensures Sanitize(ItemLink("ffffffff", "1234:0:0:0:0:0:0:0:0:0", "Sword of Testing")) == "[Sword of Testing]"
  {
    SwordColourClean();
    SwordPayloadClean();
    SwordNameClean();
    SwordBracketed();
    SanitizeLink("ffffffff", "1234:0:0:0:0:0:0:0:0:0", "Sword of Testing");
  }

  /** The same sword link written after "x||y " on one line: the literal pipe
      pair and the text up to the link are consumed by the match, and only
      "x" and the bracketed name come out. */
  lemma PairBeforeSwordLost()
    ensures Sanitize("x||y " + ItemLink("ffffffff", "1234:0:0:0:0:0:0:0:0:0", "Sword of Testing"))
            == "x[Sword of Testing]"
  {
    var link := ItemLink("ffffffff", "1234:0:0:0:0:0:0:0:0:0", "Sword of Testing");
    SwordColourClean();
    SwordPayloadClean();
    SwordNameClean();
    assert "y "[0] == 'y';
    PairBeforeLinkLost("x", "y ", "ffffffff", "1234:0:0:0:0:0:0:0:0:0", "Sword of Testing");
    assert "x" + "||" + "y " + link == "x||y " + link;
    assert "x" + "[" + "Sword of Testing" + "]" == "x[Sword of Testing]";
  }

  /** A doubled pipe is kept. */
  lemma DoubledPipeKept()
    ensures Sanitize("a||b") == "a||b"
  {
    assert NoItemTag("a||b");
    RewriteNoTag("a||b");
    NormalizePipesKeepsPairs("a||b");
  }

  /** A single pipe between two other characters is dropped; of three pipes in
      a row the first two form the kept pair and the third is dropped. */
  lemma UnpairedPipesDropped(a: char, b: char)
    requires a != '|' && b != '|' && a != NUL && b != NUL
    ensures Sanitize([a, '|', b]) == [a, b]
    ensures Sanitize([a, '|', '|', '|', b]) == [a, '|', '|', b]
  {
    var one := [a, '|', b];
    var three := [a, '|', '|', '|', b];
    assert NoItemTag(one) && NoItemTag(three);
    RewriteNoTag(one);
    RewriteNoTag(three);
    NormalizePipesKeepsPairs(one);
    NormalizePipesKeepsPairs(three);
    assert [b][1..] == [] && ['|', b][1..] == [b];
    assert KeepPairs([b]) == [b] + KeepPairs([]);
    assert KeepPairs(['|', b]) == [b];
    assert one[1..] == ['|', b];
    assert three[1..] == ['|', '|', '|', b] && three[1..][2..] == ['|', b];
  }
}
