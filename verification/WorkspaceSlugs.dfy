/** Slug allocation: apps/api/app/repositories/workspace_repo.py. */
module WorkspaceSlugs {
  // ---- slugify -----------------------------------------------------------------------------------

  predicate IsAlnum(c: char) {
    'a' <= c <= 'z' || '0' <= c <= '9'
  }

  // The length of the run of characters at the head of s that are alphanumeric, or that are not.
  function RunLength(s: string, alnum: bool): (n: nat)
    ensures n <= |s|
    ensures forall i :: 0 <= i < n ==> IsAlnum(s[i]) == alnum
    ensures n < |s| ==> IsAlnum(s[n]) != alnum
  {
    if s == "" || IsAlnum(s[0]) != alnum then 0 else 1 + RunLength(s[1..], alnum)
  }

  // re.sub(r"[^a-z0-9]+", "-", s)
  function Collapse(s: string): string {
    if s == "" then ""
    else if IsAlnum(s[0]) then [s[0]] + Collapse(s[1..])
    else "-" + Collapse(s[RunLength(s, false)..])
  }

  function StripLeft(s: string): string {
    if s != "" && s[0] == '-' then StripLeft(s[1..]) else s
  }

  function StripRight(s: string): string {
    if s != "" && s[|s| - 1] == '-' then StripRight(s[..|s| - 1]) else s
  }

  function SlugOf(lowered: string): string {
    var slug := StripRight(StripLeft(Collapse(lowered)));
    if slug == "" then "workspace" else slug
  }

  function AsciiLower(s: string): string {
    seq(|s|, i requires 0 <= i < |s| => if 'A' <= s[i] <= 'Z' then s[i] - 'A' + 'a' else s[i])
  }

  // str.lower is a parameter: all that is known of it is what it does to ASCII text.
  ghost predicate LowersAscii(lower: string -> string) {
    forall s :: (forall i :: 0 <= i < |s| ==> s[i] < 128 as char) ==> lower(s) == AsciiLower(s)
  }

  function Slugify(lower: string -> string, name: string): string {
    SlugOf(lower(name))
  }

  // What a slug is: words joined by single hyphens.
  function Words(s: string): seq<string>
    decreases |s|
  {
    if s == "" then []
    else if IsAlnum(s[0]) then [s[..RunLength(s, true)]] + Words(s[RunLength(s, true)..])
    else Words(s[1..])
  }

  function Join(words: seq<string>): string {
    if words == [] then "" else if |words| == 1 then words[0] else words[0] + "-" + Join(words[1..])
  }

  predicate IsSlug(s: string) {
    && s != "" && s[0] != '-' && s[|s| - 1] != '-'
    && (forall i :: 0 <= i < |s| ==> IsAlnum(s[i]) || s[i] == '-')
    && (forall i :: 0 <= i < |s| - 1 ==> s[i] != '-' || s[i + 1] != '-')
  }

  // Collapsed text: no doubled hyphens, but perhaps one at either end.
  predicate IsCollapsed(s: string) {
    && (forall i :: 0 <= i < |s| ==> IsAlnum(s[i]) || s[i] == '-')
    && (forall i :: 0 <= i < |s| - 1 ==> s[i] != '-' || s[i + 1] != '-')
  }

  lemma {:induction false} CollapseIsCollapsed(s: string)
    ensures IsCollapsed(Collapse(s))
    ensures s != "" ==> Collapse(s) != "" && (Collapse(s)[0] == '-' <==> !IsAlnum(s[0]))
    decreases |s|
  {
    if s != "" {
      var rest := if IsAlnum(s[0]) then s[1..] else s[RunLength(s, false)..];
      CollapseIsCollapsed(rest);
    }
  }

  lemma {:induction false} CollapseKeepsCollapsed(s: string)
    requires IsCollapsed(s)
    ensures Collapse(s) == s
    decreases |s|
  {
    if s != "" {
      assert !IsAlnum(s[0]) ==> RunLength(s[1..], false) == 0;
      CollapseKeepsCollapsed(s[1..]);
      assert s == [s[0]] + s[1..];
    }
  }

  lemma StripsOneHyphen(s: string)
    requires IsCollapsed(s)
    ensures StripLeft(s) == if s != "" && s[0] == '-' then s[1..] else s
    ensures StripRight(s) == if s != "" && s[|s| - 1] == '-' then s[..|s| - 1] else s
  {
    if |s| > 1 {
      assert s[0] != '-' || s[1] != '-';
      assert s[|s| - 2] != '-' || s[|s| - 2 + 1] != '-';
    }
  }

  lemma PartsOfCollapsed(s: string)
    requires IsCollapsed(s) && s != ""
    ensures IsCollapsed(s[1..]) && IsCollapsed(s[..|s| - 1])
    ensures s[0] == '-' && |s| > 1 ==> s[1] != '-'
    ensures s[|s| - 1] == '-' && |s| > 1 ==> s[|s| - 2] != '-'
  {
    if |s| > 1 {
      assert s[0] != '-' || s[1] != '-';
      assert s[|s| - 2] != '-' || s[|s| - 2 + 1] != '-';
    }
  }

  lemma StrippedLeft(s: string)
    requires IsCollapsed(s)
    ensures IsCollapsed(StripLeft(s)) && (StripLeft(s) != "" ==> StripLeft(s)[0] != '-')
  {
    StripsOneHyphen(s);
    if s != "" {
      PartsOfCollapsed(s);
    }
    hide IsCollapsed, StripLeft, StripRight;
  }

  lemma StrippedRight(s: string)
    requires IsCollapsed(s) && (s != "" ==> s[0] != '-')
    ensures var r := StripRight(s); IsCollapsed(r) && (r != "" ==> r[0] != '-' && r[|r| - 1] != '-')
  {
    StripsOneHyphen(s);
    if s != "" {
      PartsOfCollapsed(s);
    }
    hide IsCollapsed, StripLeft, StripRight;
  }

  lemma SlugOfIsSlug(lowered: string)
    ensures IsSlug(SlugOf(lowered))
  {
    hide Collapse, StripLeft, StripRight;
    CollapseIsCollapsed(lowered);
    var c := Collapse(lowered);
    StrippedLeft(c);
    StrippedRight(StripLeft(c));
  }

  lemma LowerKeepsSlugs(lower: string -> string, s: string)
    requires LowersAscii(lower) && IsSlug(s)
    ensures lower(s) == s
  {
    assert AsciiLower(s) == s;
  }

  lemma SlugOfKeepsSlugs(s: string)
    requires IsSlug(s)
    ensures SlugOf(s) == s
  {
    CollapseKeepsCollapsed(s);
  }

  /** slugify makes a slug of every name, and the slugs are exactly the names it leaves as they are; so a
      second application changes nothing. */
  lemma SlugifyIsNormalForm(lower: string -> string, name: string)
    requires LowersAscii(lower)
    ensures IsSlug(Slugify(lower, name))
    ensures Slugify(lower, name) == name <==> IsSlug(name)
    ensures Slugify(lower, Slugify(lower, name)) == Slugify(lower, name)
  {
    SlugOfIsSlug(lower(name));
    var slug := Slugify(lower, name);
    LowerKeepsSlugs(lower, slug);
    SlugOfKeepsSlugs(slug);
    if IsSlug(name) {
      LowerKeepsSlugs(lower, name);
      SlugOfKeepsSlugs(name);
    }
  }

  /** Every lower-case letter and every digit is kept. */
  lemma AlphabetIsKept()
    ensures SlugOf("abcdefghijklmnopqrstuvwxyz-0123456789") == "abcdefghijklmnopqrstuvwxyz-0123456789"
  {
    hide SlugOf, Collapse, StripLeft, StripRight, RunLength;
    SlugOfKeepsSlugs("abcdefghijklmnopqrstuvwxyz-0123456789");
  }

  // ---- what a slug keeps of a name ---------------------------------------------------------------

  lemma {:induction false} WordsAreWords(s: string)
    ensures forall w :: w in Words(s) ==> w != "" && forall i :: 0 <= i < |w| ==> IsAlnum(w[i])
    decreases |s|
  {
    if s != "" {
      WordsAreWords(if IsAlnum(s[0]) then s[RunLength(s, true)..] else s[1..]);
    }
  }

  lemma {:induction false} WordsSkipGap(s: string)
    ensures Words(s[RunLength(s, false)..]) == Words(s)
    decreases |s|
  {
    if s != "" && !IsAlnum(s[0]) {
      WordsSkipGap(s[1..]);
      assert s[RunLength(s, false)..] == s[1..][RunLength(s[1..], false)..];
    } else {
      assert s[0..] == s;
    }
  }

  lemma ConsWord(s: string, n: nat, rest: string)
    requires 0 < n <= |s|
    ensures s[1..][n - 1..] == s[n..]
    ensures [s[0]] + (s[1..][..n - 1] + rest) == s[..n] + rest
  {
    assert [s[0]] + s[1..][..n - 1] == s[..n];
  }

  lemma WordAtHead(s: string)
    requires s != "" && IsAlnum(s[0])
    ensures RunLength(s, true) == 1 + RunLength(s[1..], true) && Collapse(s) == [s[0]] + Collapse(s[1..])
  {
  }

  lemma NoWordAtHead(s: string)
    requires s == "" || !IsAlnum(s[0])
    ensures RunLength(s, true) == 0 && s[..0] + Collapse(s[0..]) == Collapse(s)
  {
    assert s[0..] == s;
  }

  lemma {:induction false} CollapseKeepsWord(s: string)
    ensures Collapse(s) == s[..RunLength(s, true)] + Collapse(s[RunLength(s, true)..])
    decreases |s|
  {
    hide *;
    if s != "" && IsAlnum(s[0]) {
      WordAtHead(s);
      CollapseKeepsWord(s[1..]);
      ConsWord(s, RunLength(s, true), Collapse(s[RunLength(s, true)..]));
    } else {
      NoWordAtHead(s);
    }
  }

  function Edge(c: char): string {
    if IsAlnum(c) then "" else "-"
  }

  // What CollapseJoinsWords says, of a text, its words and its collapsed form.
  predicate Joined(s: string, words: seq<string>, collapsed: string)
    requires s != ""
  {
    if words == [] then collapsed == "-" && !IsAlnum(s[0]) && !IsAlnum(s[|s| - 1])
    else collapsed == Edge(s[0]) + Join(words) + Edge(s[|s| - 1])
  }

  lemma Regroup(a: string, b: string, c: string, d: string)
    ensures a + (b + c + d) == a + b + c + d
  {
  }

  lemma JoinedAfterWord(s: string, n: nat, words: seq<string>, collapsed: string)
    requires 0 < n < |s| && IsAlnum(s[0]) && !IsAlnum(s[n]) && Joined(s[n..], words, collapsed)
    ensures Joined(s, [s[..n]] + words, s[..n] + collapsed)
  {
    var w, last := s[..n], Edge(s[|s| - 1]);
    assert s[n..][0] == s[n] && s[n..][|s| - n - 1] == s[|s| - 1];
    if words == [] {
      assert [w] + words == [w] && Join([w]) == w && last == "-";
    } else {
      assert Join([w] + words) == w + "-" + Join(words) by { assert ([w] + words)[1..] == words; }
      hide Join;
      Regroup(w, "-", Join(words), last);
    }
    assert forall x: string :: "" + x == x;
  }

  lemma JoinedAfterGap(s: string, n: nat, words: seq<string>, collapsed: string)
    requires 0 < n < |s| && !IsAlnum(s[0]) && IsAlnum(s[n]) && Joined(s[n..], words, collapsed)
    ensures Joined(s, words, "-" + collapsed)
  {
    assert s[n..][|s| - n - 1] == s[|s| - 1];
    if words != [] {
      assert "-" + (Join(words) + Edge(s[|s| - 1])) == "-" + Join(words) + Edge(s[|s| - 1]);
    }
  }

  lemma WordsAfterWord(s: string)
    requires s != "" && IsAlnum(s[0])
    ensures var n := RunLength(s, true);
            && Words(s) == [s[..n]] + Words(s[n..])
            && (s[n..] == "" ==> Words(s) == [s] && s[..n] == s && Collapse(s[n..]) == "" && s + "" == s)
  {
    var n := RunLength(s, true);
    assert s[n..] == "" ==> n == |s| && s[..n] == s && [s] + [] == [s];
  }

  lemma LoneWordIsJoined(s: string)
    requires s != "" && IsAlnum(s[0]) && IsAlnum(s[|s| - 1])
    ensures Joined(s, [s], s)
  {
  }

  lemma JoinsFromWord(s: string)
    requires s != "" && IsAlnum(s[0])
    requires var rest := s[RunLength(s, true)..]; rest != "" ==> Joined(rest, Words(rest), Collapse(rest))
    ensures Joined(s, Words(s), Collapse(s))
  {
    hide Joined, Words, Collapse, RunLength;
    var n := RunLength(s, true);
    WordAtHead(s);
    CollapseKeepsWord(s);
    WordsAfterWord(s);
    if n == |s| {
      LoneWordIsJoined(s);
    } else {
      JoinedAfterWord(s, n, Words(s[n..]), Collapse(s[n..]));
    }
  }

  lemma GapAtHead(s: string)
    requires s != "" && !IsAlnum(s[0])
    ensures RunLength(s, false) > 0 && Collapse(s) == "-" + Collapse(s[RunLength(s, false)..])
  {
  }

  lemma LoneGapIsJoined(s: string)
    requires s != "" && !IsAlnum(s[0]) && !IsAlnum(s[|s| - 1])
    ensures Words("") == [] && Joined(s, [], "-" + Collapse(""))
  {
  }

  lemma JoinsFromGap(s: string)
    requires s != "" && !IsAlnum(s[0])
    requires var rest := s[RunLength(s, false)..]; rest != "" ==> Joined(rest, Words(rest), Collapse(rest))
    ensures Joined(s, Words(s), Collapse(s))
  {
    hide Joined, Words, Collapse, RunLength;
    var n := RunLength(s, false);
    GapAtHead(s);
    WordsSkipGap(s);
    if n == |s| {
      assert s[n..] == "";
      LoneGapIsJoined(s);
    } else {
      JoinedAfterGap(s, n, Words(s[n..]), Collapse(s[n..]));
    }
  }

  lemma {:induction false} CollapseJoinsWords(s: string)
    requires s != ""
    ensures Joined(s, Words(s), Collapse(s))
    decreases |s|
  {
    hide Joined, Words, Collapse, RunLength;
    if IsAlnum(s[0]) {
      WordAtHead(s);
      if s[RunLength(s, true)..] != "" {
        CollapseJoinsWords(s[RunLength(s, true)..]);
      }
      JoinsFromWord(s);
    } else {
      GapAtHead(s);
      if s[RunLength(s, false)..] != "" {
        CollapseJoinsWords(s[RunLength(s, false)..]);
      }
      JoinsFromGap(s);
    }
  }

  lemma {:induction false} JoinEndsInWords(words: seq<string>)
    requires words != [] && forall w :: w in words ==> w != "" && forall i :: 0 <= i < |w| ==> IsAlnum(w[i])
    ensures var j := Join(words); j != "" && IsAlnum(j[0]) && IsAlnum(j[|j| - 1])
  {
    if |words| > 1 {
      JoinEndsInWords(words[1..]);
    }
    assert words[0] in words;
  }

  lemma StripsLeftEdge(left: string, tail: string)
    requires left in {"", "-"} && tail != "" && tail[0] != '-'
    ensures StripLeft(left + tail) == tail
  {
    if left == "" {
      assert left + tail == tail;
    } else {
      assert (left + tail)[1..] == tail;
    }
  }

  lemma StripsRightEdge(front: string, right: string)
    requires right in {"", "-"} && front != "" && front[|front| - 1] != '-'
    ensures StripRight(front + right) == front
  {
    var s := front + right;
    if right == "" {
      assert s == front;
    } else {
      assert s[..|s| - 1] == front;
    }
  }

  lemma StripsBothEdges(left: string, middle: string, right: string)
    requires left in {"", "-"} && right in {"", "-"}
    requires middle != "" && middle[0] != '-' && middle[|middle| - 1] != '-'
    ensures StripRight(StripLeft(left + middle + right)) == middle
  {
    hide *;
    StripsLeftEdge(left, middle + right);
    StripsRightEdge(middle, right);
    assert left + middle + right == left + (middle + right);
  }

  lemma StripJoined(s: string, words: seq<string>, collapsed: string)
    requires s != "" && Joined(s, words, collapsed)
    requires forall w :: w in words ==> w != "" && forall i :: 0 <= i < |w| ==> IsAlnum(w[i])
    ensures StripRight(StripLeft(collapsed)) == if words == [] then "" else Join(words)
  {
    if words == [] {
      assert collapsed[1..] == "";
    } else {
      hide StripLeft, StripRight, Join;
      JoinEndsInWords(words);
      StripsBothEdges(Edge(s[0]), Join(words), Edge(s[|s| - 1]));
    }
  }

  /** The slug is the alphanumeric words of the lowered name, in order, joined by single hyphens. */
  lemma SlugJoinsWords(lowered: string)
    ensures SlugOf(lowered) == if Words(lowered) == [] then "workspace" else Join(Words(lowered))
  {
    if lowered != "" {
      CollapseJoinsWords(lowered);
      WordsAreWords(lowered);
      StripJoined(lowered, Words(lowered), Collapse(lowered));
    }
  }

  // ---- suffixes ----------------------------------------------------------------------------------

  function Digit(d: nat): char
    requires d < 10
  {
    '0' + d as char
  }

  function Decimal(n: nat): string {
    if n < 10 then [Digit(n)] else Decimal(n / 10) + [Digit(n % 10)]
  }

  lemma {:induction false} DecimalIsInjective(a: nat, b: nat)
    requires Decimal(a) == Decimal(b)
    ensures a == b
    decreases a
  {
    var s, t := Decimal(a), Decimal(b);
    assert s[|s| - 1] == t[|t| - 1];
    assert a % 10 == b % 10;
    if a >= 10 && b >= 10 {
      assert s[..|s| - 1] == Decimal(a / 10) && t[..|t| - 1] == Decimal(b / 10);
      DecimalIsInjective(a / 10, b / 10);
    } else {
      DecimalIsNotEmpty(a / 10);
      DecimalIsNotEmpty(b / 10);
    }
  }

  lemma {:induction false} DecimalIsNotEmpty(n: nat)
    ensures Decimal(n) != "" && forall i :: 0 <= i < |Decimal(n)| ==> IsAlnum(Decimal(n)[i])
    decreases n
  {
    if n >= 10 {
      DecimalIsNotEmpty(n / 10);
    }
  }

  // The number that a text of decimal digits stands for.
  function Value(s: string): int {
    if s == "" then 0 else 10 * Value(s[..|s| - 1]) + (s[|s| - 1] as int - '0' as int)
  }

  lemma {:induction false} DecimalIsRead(n: nat)
    ensures Value(Decimal(n)) == n && (n > 0 ==> Decimal(n)[0] != '0')
    ensures forall i :: 0 <= i < |Decimal(n)| ==> '0' <= Decimal(n)[i] <= '9'
  {
    if n >= 10 {
      DecimalIsRead(n / 10);
      assert Decimal(n)[..|Decimal(n)| - 1] == Decimal(n / 10);
    } else {
      assert Decimal(n)[..0] == "";
    }
  }

  // The k-th slug that create tries.
  function Candidate(base: string, k: nat): string
    requires k > 0
  {
    if k == 1 then base else base + "-" + Decimal(k)
  }

  /** The first slug tried is the base itself, and the k-th the base, a hyphen and k in decimal. */
  lemma CandidateIsNumbered(base: string, k: nat)
    requires k > 0
    ensures k == 1 ==> Candidate(base, k) == base
    ensures k > 1 ==>
              && |Candidate(base, k)| > |base| + 1 && Candidate(base, k)[..|base| + 1] == base + "-"
              && var suffix := Candidate(base, k)[|base| + 1..];
                 && Value(suffix) == k && suffix[0] != '0'
                 && forall i :: 0 <= i < |suffix| ==> '0' <= suffix[i] <= '9'
  {
    if k > 1 {
      DecimalIsRead(k);
      assert Candidate(base, k)[|base| + 1..] == Decimal(k);
    }
  }

  lemma CandidateIsInjective(base: string, i: nat, j: nat)
    requires i > 0 && j > 0 && Candidate(base, i) == Candidate(base, j)
    ensures i == j
  {
    if i > 1 && j > 1 {
      assert Candidate(base, i)[|base| + 1..] == Decimal(i) && Candidate(base, j)[|base| + 1..] == Decimal(j);
      DecimalIsInjective(i, j);
    }
  }

  lemma CandidateIsSlug(base: string, k: nat)
    requires IsSlug(base) && k > 0
    ensures IsSlug(Candidate(base, k))
  {
    DecimalIsNotEmpty(k);
  }

  predicate FirstFree(taken: set<string>, base: string, k: nat) {
    k > 0 && Candidate(base, k) !in taken && forall j :: 0 < j < k ==> Candidate(base, j) in taken
  }

  // The taken slugs that the first k - 1 attempts have not yet run into.
  function Unmet(taken: set<string>, base: string, k: nat): set<string> {
    set s | s in taken && !exists j :: 0 < j < k && s == Candidate(base, j)
  }

  lemma AttemptMeetsOne(taken: set<string>, base: string, k: nat)
    requires k > 0 && Candidate(base, k) in taken
    ensures Unmet(taken, base, k + 1) < Unmet(taken, base, k)
    ensures |Unmet(taken, base, k + 1)| < |Unmet(taken, base, k)|
  {
    var c := Candidate(base, k);
    forall j | 0 < j < k
      ensures c != Candidate(base, j)
    {
      if c == Candidate(base, j) {
        CandidateIsInjective(base, k, j);
      }
    }
    assert c in Unmet(taken, base, k) && c !in Unmet(taken, base, k + 1);
    assert Unmet(taken, base, k + 1) <= Unmet(taken, base, k) - {c};
    SubsetIsNoLarger(Unmet(taken, base, k + 1), Unmet(taken, base, k) - {c});
  }

  lemma {:induction false} SubsetIsNoLarger(a: set<string>, b: set<string>)
    requires a <= b
    ensures |a| <= |b|
  {
    if a != {} {
      var x :| x in a;
      SubsetIsNoLarger(a - {x}, b - {x});
    }
  }

  /** Whatever slugs are taken, exactly one attempt is the first free one, and it comes no later than one
      past their number. */
  lemma OneIsFirstFree(taken: set<string>, base: string) returns (k: nat)
    ensures FirstFree(taken, base, k) && k <= |taken| + 1
    ensures forall j :: FirstFree(taken, base, j) ==> j == k
  {
    k := 1;
    assert Unmet(taken, base, 1) == taken;
    while Candidate(base, k) in taken
      invariant k > 0 && forall j :: 0 < j < k ==> Candidate(base, j) in taken
      invariant |Unmet(taken, base, k)| + k <= |taken| + 1
      decreases |Unmet(taken, base, k)|
    {
      AttemptMeetsOne(taken, base, k);
      k := k + 1;
    }
  }

  // ---- the repository ----------------------------------------------------------------------------

  datatype Workspace = Workspace(name: string, slug: string)

  function Slugs(rows: seq<Workspace>): set<string> {
    set w | w in rows :: w.slug
  }

  class WorkspaceRepository {
    const lower: string -> string
    var rows: seq<Workspace>

    ghost predicate Valid()
      reads this
    {
      && LowersAscii(lower)
      && (forall i, j :: 0 <= i < j < |rows| ==> rows[i].slug != rows[j].slug)
      && forall w :: w in rows ==> IsSlug(w.slug)
    }

    constructor (lower: string -> string)
      requires LowersAscii(lower)
      ensures Valid() && rows == [] && this.lower == lower
    {
      this.lower, rows := lower, [];
    }

    predicate GetBySlug(slug: string)
      reads this
    {
      exists w :: w in rows && w.slug == slug
    }

    method Create(name: string) returns (w: Workspace)
      requires Valid()
      modifies this`rows
      ensures Valid() && rows == old(rows) + [w] && w.name == name
      ensures exists k :: FirstFree(Slugs(old(rows)), Slugify(lower, name), k)
                          && w.slug == Candidate(Slugify(lower, name), k)
    {
      hide Unmet, SlugOf, IsSlug, Decimal, LowersAscii;
      var base := Slugify(lower, name);
      SlugOfIsSlug(lower(name));
      ghost var taken := Slugs(rows);
      var slug, suffix := base, 1;
      while GetBySlug(slug)
        invariant rows == old(rows) && suffix > 0 && slug == Candidate(base, suffix)
        invariant forall j :: 0 < j < suffix ==> Candidate(base, j) in taken
        decreases |Unmet(taken, base, suffix)|
      {
        AttemptMeetsOne(taken, base, suffix);
        suffix := suffix + 1;
        slug := base + "-" + Decimal(suffix);
      }
      CandidateIsSlug(base, suffix);
      assert FirstFree(taken, base, suffix);
      w := Workspace(name, slug);
      rows := rows + [w];
    }
  }
}
