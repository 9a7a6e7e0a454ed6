/** The URL slug the server derives from a project title when it creates or
    updates a project:
      title.toLowerCase().replace(/\s+/g, '-').replace(/[^\w-]+/g, '')
    Each step is a function below. The lemmas show what each step keeps and
    what it changes, that together they slug a title word by word (a word's
    slug is its lowered letters, digits, `_` and `-`, and a whitespace run
    between words becomes one dash), and that slugging a slug changes
    nothing. */
module ProjectSlug {
  import opened Strings
  import Lists

  predicate IsUpper(c: char) {
    'A' <= c <= 'Z'
  }

  /** ASCII case mapping; other characters are left as they are. */
  function LowerChar(c: char): (r: char)
    ensures !IsUpper(r)
    ensures !IsUpper(c) ==> r == c
  {
    if IsUpper(c) then (c as int + 32) as char else c
  }

  /** `toLowerCase()`, restricted to ASCII. */
  function ToLower(s: string): (r: string)
    ensures |r| == |s|
    ensures forall i :: 0 <= i < |r| ==> r[i] == LowerChar(s[i])
  {
    seq(|s|, i requires 0 <= i < |s| => LowerChar(s[i]))
  }

  /** `replace(/\s+/g, '-')`: every maximal run of whitespace becomes one dash
      (WhitespaceRunIsOneDash); every other character is kept, in order
      (WordPassesDashRuns); no whitespace is left (DashRunsAlphabet). */
  function DashRuns(s: string): (r: string)
    ensures |r| <= |s|
    decreases |s|
  {
    if s == [] then []
    else if IsWhitespace(s[0]) then "-" + DashRuns(TrimStart(s[1..]))
    else [s[0]] + DashRuns(s[1..])
  }

  /** Every character of r is a dash or a non-whitespace character of s. */
  predicate DashesOrFrom(r: string, s: string) {
    forall i :: 0 <= i < |r| ==> r[i] == '-' || (!IsWhitespace(r[i]) && r[i] in s)
  }

  /** DashRuns leaves no whitespace: every character is a dash or a
      non-whitespace character of the input. */
  lemma {:induction false} DashRunsAlphabet(s: string)
    ensures DashesOrFrom(DashRuns(s), s)
    decreases |s|
  {
    if s != [] {
      if IsWhitespace(s[0]) {
        var t := TrimStart(s[1..]);
        DashRunsAlphabet(t);
        SuffixMembers(s, t);
        DashesOrFromPrepend('-', DashRuns(t), t, s);
      } else {
        DashRunsAlphabet(s[1..]);
        SuffixMembers(s, s[1..]);
        DashesOrFromPrepend(s[0], DashRuns(s[1..]), s[1..], s);
      }
    }
  }

  lemma SuffixMembers(s: string, t: string)
    requires |t| <= |s| && t == s[|s| - |t|..]
    ensures forall c :: c in t ==> c in s
  {
    forall c | c in t ensures c in s {
      var k :| 0 <= k < |t| && t[k] == c;
      assert s[|s| - |t| + k] == c;
    }
  }

  lemma DashesOrFromPrepend(x: char, r: string, t: string, s: string)
    requires x == '-' || (!IsWhitespace(x) && x in s)
    requires DashesOrFrom(r, t)
    requires forall c :: c in t ==> c in s
    ensures DashesOrFrom([x] + r, s)
  {
    var xr := [x] + r;
    forall i | 0 <= i < |xr| ensures xr[i] == '-' || (!IsWhitespace(xr[i]) && xr[i] in s) {
      if i > 0 {
        assert xr[i] == r[i - 1];
      }
    }
  }

  /** `\w` without the `u` flag: ASCII letters, digits and underscore. */
  predicate IsWordChar(c: char) {
    'A' <= c <= 'Z' || 'a' <= c <= 'z' || '0' <= c <= '9' || c == '_'
  }

  predicate Kept(c: char) {
    IsWordChar(c) || c == '-'
  }

  /** `replace(/[^\w-]+/g, '')`: every character outside `[A-Za-z0-9_-]` is
      dropped; the others are kept in order (DropNonWordIsFilter). */
  function DropNonWord(s: string): (r: string)
    ensures forall i :: 0 <= i < |r| ==> Kept(r[i]) && r[i] in s
    ensures |r| <= |s|
  {
    if s == [] then []
    else if Kept(s[0]) then [s[0]] + DropNonWord(s[1..])
    else DropNonWord(s[1..])
  }


  predicate IsSlugChar(c: char) {
    'a' <= c <= 'z' || '0' <= c <= '9' || c == '_' || c == '-'
  }

  predicate IsSlug(s: string) {
    forall i :: 0 <= i < |s| ==> IsSlugChar(s[i])
  }

  /** The whole slug expression. A slug holds only lower-case ASCII letters,
      digits, `_` and `-`, and never more characters than the title. */
  function Slug(title: string): (slug: string)
    ensures IsSlug(slug)
    ensures |slug| <= |title|
  {
    StepsGiveSlug(title);
    DropNonWord(DashRuns(ToLower(title)))
  }

  /** The three steps leave only slug characters. */
  lemma StepsGiveSlug(title: string)
    ensures IsSlug(DropNonWord(DashRuns(ToLower(title))))
  {
    var lower := ToLower(title);
    var dashed := DashRuns(lower);
    var slug := DropNonWord(dashed);
    DashRunsAlphabet(lower);
    forall i | 0 <= i < |slug| ensures IsSlugChar(slug[i]) {
      var c := slug[i];
      assert Kept(c) && c in dashed;
      if c != '-' {
        assert c in lower;
        var k :| 0 <= k < |lower| && lower[k] == c;
        assert !IsUpper(c);
      }
    }
  }

  lemma {:induction false} ToLowerFixed(s: string)
    requires IsSlug(s)
    ensures ToLower(s) == s
  {
  }

  /** Characters other than whitespace pass DashRuns one by one, in order:
      a stretch without whitespace comes through unchanged, whatever follows. */
  lemma {:induction false} WordPassesDashRuns(w: string, b: string)
    requires forall i :: 0 <= i < |w| ==> !IsWhitespace(w[i])
    ensures DashRuns(w + b) == w + DashRuns(b)
  {
    if w == [] {
      assert w + b == b;
    } else {
      calc {
        DashRuns(w + b);
        { assert w + b == [w[0]] + (w[1..] + b); }
        DashRuns([w[0]] + (w[1..] + b));
        { DashRunsKeepsFirst(w[0], w[1..] + b); }
        [w[0]] + DashRuns(w[1..] + b);
        { WordPassesDashRuns(w[1..], b); }
        [w[0]] + (w[1..] + DashRuns(b));
        { assert [w[0]] + w[1..] == w; }
        w + DashRuns(b);
      }
    }
  }

  lemma DashRunsKeepsFirst(c: char, t: string)
    requires !IsWhitespace(c)
    ensures DashRuns([c] + t) == [c] + DashRuns(t)
  {
    assert ([c] + t)[1..] == t;
  }

  lemma DashRunsFixed(s: string)
    requires forall i :: 0 <= i < |s| ==> !IsWhitespace(s[i])
    ensures DashRuns(s) == s
  {
    WordPassesDashRuns(s, []);
    assert s + [] == s;
  }

  /** DropNonWord is the filter that keeps word characters and dashes: every
      such character survives, in its order, and no other does. */
  lemma {:induction false} DropNonWordIsFilter(s: string)
    ensures DropNonWord(s) == Lists.Filter(s, Kept)
  {
    if s != [] {
      DropNonWordIsFilter(s[1..]);
    }
  }

  /** Dropping works piece by piece. */
  lemma DropNonWordAppend(a: string, b: string)
    ensures DropNonWord(a + b) == DropNonWord(a) + DropNonWord(b)
  {
    DropNonWordIsFilter(a + b);
    DropNonWordIsFilter(a);
    DropNonWordIsFilter(b);
    Lists.FilterAppend(a, b, Kept);
  }

  lemma DropNonWordFixed(s: string)
    requires forall i :: 0 <= i < |s| ==> Kept(s[i])
    ensures DropNonWord(s) == s
  {
    DropNonWordIsFilter(s);
    Lists.FilterAllKept(s, Kept);
  }

  /** Slugging a slug changes nothing. */
  lemma SlugIdempotent(title: string)
    ensures Slug(Slug(title)) == Slug(title)
  {
    var s := Slug(title);
    ToLowerFixed(s);
    assert forall i :: 0 <= i < |s| ==> !IsWhitespace(s[i]) by {
      forall i | 0 <= i < |s| ensures !IsWhitespace(s[i]) {
        assert IsSlugChar(s[i]);
      }
    }
    DashRunsFixed(s);
    DropNonWordFixed(s);
  }

  lemma {:induction false} TrimStartAfterRun(w: string, b: string)
    requires AllWhitespace(w)
    requires b == [] || !IsWhitespace(b[0])
    ensures TrimStart(w + b) == b
  {
    if w == [] {
      assert w + b == b;
    } else {
      assert (w + b)[1..] == w[1..] + b;
      TrimStartAfterRun(w[1..], b);
    }
  }

  /** A whole whitespace run, however long, turns into a single dash. */
  lemma WhitespaceRunIsOneDash(w: string, b: string)
    requires |w| > 0 && AllWhitespace(w)
    requires b == [] || !IsWhitespace(b[0])
    ensures DashRuns(w + b) == "-" + DashRuns(b)
  {
    assert (w + b)[0] == w[0];
    assert (w + b)[1..] == w[1..] + b;
    TrimStartAfterRun(w[1..], b);
  }

  lemma ToLowerAppend(a: string, b: string)
    ensures ToLower(a + b) == ToLower(a) + ToLower(b)
  {
  }

  /** Lowering neither makes nor unmakes whitespace. */
  lemma ToLowerKeepsWhitespace(s: string)
    ensures forall i :: 0 <= i < |s| ==> (IsWhitespace(ToLower(s)[i]) <==> IsWhitespace(s[i]))
    ensures AllWhitespace(s) ==> ToLower(s) == s
  {
  }

  /** The slug of a title without whitespace: its lowered characters that
      are letters, digits, `_` or `-`, in order. */
  lemma SlugOfWord(w: string)
    requires forall i :: 0 <= i < |w| ==> !IsWhitespace(w[i])
    ensures Slug(w) == Lists.Filter(ToLower(w), Kept)
  {
    var lower := ToLower(w);
    ToLowerKeepsWhitespace(w);
    DashRunsFixed(lower);
    DropNonWordIsFilter(lower);
  }

  /** A whitespace run after a word (possibly empty) and before the rest of
      the title becomes one dash between the two slugs. With SlugOfWord this
      fixes the slug of every title, one word at a time. */
  lemma SlugSplitsAtRun(a: string, ws: string, b: string)
    requires forall i :: 0 <= i < |a| ==> !IsWhitespace(a[i])
    requires |ws| > 0 && AllWhitespace(ws)
    requires b == [] || !IsWhitespace(b[0])
    ensures Slug(a + ws + b) == Slug(a) + "-" + Slug(b)
  {
    var la, lb := ToLower(a), ToLower(b);
    var dashed := LoweredSplit(a, ws, b);
    DropAroundDash(la, DashRuns(lb));
    SlugOfLowered(a);
  }

  /** Dropping on both sides of a dash keeps the dash. */
  lemma DropAroundDash(x: string, y: string)
    ensures DropNonWord(x + ("-" + y)) == DropNonWord(x) + "-" + DropNonWord(y)
  {
    DropNonWordAppend(x, "-" + y);
    DropNonWordAppend("-", y);
    DashKept();
  }

  lemma SlugOfLowered(a: string)
    requires forall i :: 0 <= i < |a| ==> !IsWhitespace(a[i])
    ensures Slug(a) == DropNonWord(ToLower(a))
  {
    ToLowerKeepsWhitespace(a);
    DashRunsFixed(ToLower(a));
  }

  lemma DashKept()
    ensures DropNonWord("-") == "-"
  {
    assert "-"[1..] == [];
  }

  /** The first two steps on a word, a whitespace run and the rest. */
  lemma LoweredSplit(a: string, ws: string, b: string) returns (dashed: string)
    requires forall i :: 0 <= i < |a| ==> !IsWhitespace(a[i])
    requires |ws| > 0 && AllWhitespace(ws)
    requires b == [] || !IsWhitespace(b[0])
    ensures dashed == DashRuns(ToLower(a + ws + b))
    ensures dashed == ToLower(a) + ("-" + DashRuns(ToLower(b)))
  {
    var la, lw, lb := ToLower(a), ToLower(ws), ToLower(b);
    ToLowerAppend(a + ws, b);
    ToLowerAppend(a, ws);
    ToLowerKeepsWhitespace(a);
    ToLowerKeepsWhitespace(ws);
    ToLowerKeepsWhitespace(b);
    assert ToLower(a + ws + b) == la + (lw + lb);
    WordPassesDashRuns(la, lw + lb);
    WhitespaceRunIsOneDash(lw, lb);
    dashed := la + ("-" + DashRuns(lb));
  }

  /** A worked title: the double space becomes one dash, the capitals are
      lowered and the `!` is dropped. */
  lemma SlugExample(title: string)
    requires title == "Casa  Azul!"
    ensures Slug(title) == "casa-azul"
  {
    calc {
      Slug(title);
      { assert title == "Casa" + "  " + "Azul!"; }
      Slug("Casa" + "  " + "Azul!");
      { NoWhitespaceIn("Casa"); SlugSplitsAtRun("Casa", "  ", "Azul!"); }
      Slug("Casa") + "-" + Slug("Azul!");
      { SlugOfCasa(); SlugOfAzul(); }
      "casa" + "-" + "azul";
      { JoinedExample(); }
      "casa-azul";
    }
  }

  lemma JoinedExample()
    ensures "casa" + "-" + "azul" == "casa-azul"
  {
  }

  lemma SlugOfCasa()
    ensures Slug("Casa") == "casa"
  {
    NoWhitespaceIn("Casa");
    calc {
      Slug("Casa");
      { SlugOfWord("Casa"); }
      Lists.Filter(ToLower("Casa"), Kept);
      { assert ToLower("Casa") == "casa"; }
      Lists.Filter("casa", Kept);
      { Lists.FilterAllKept("casa", Kept); }
      "casa";
    }
  }

  lemma SlugOfAzul()
    ensures Slug("Azul!") == "azul"
  {
    NoWhitespaceIn("Azul!");
    calc {
      Slug("Azul!");
      { SlugOfWord("Azul!"); }
      Lists.Filter(ToLower("Azul!"), Kept);
      { assert ToLower("Azul!") == "azul" + "!"; }
      Lists.Filter("azul" + "!", Kept);
      { Lists.FilterAppend("azul", "!", Kept); }
      Lists.Filter("azul", Kept) + Lists.Filter("!", Kept);
      { Lists.FilterAllKept("azul", Kept); BangDropped(); }
      "azul";
    }
  }

  lemma NoWhitespaceIn(w: string)
    requires forall i :: 0 <= i < |w| ==> 'A' <= w[i] <= 'z' || w[i] == '!'
    ensures forall i :: 0 <= i < |w| ==> !IsWhitespace(w[i])
  {
  }

  lemma BangDropped()
    ensures Lists.Filter("!", Kept) == []
  {
    assert !Kept('!');
    assert "!"[1..] == [];
  }
}
