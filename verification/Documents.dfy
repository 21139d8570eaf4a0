/** Naming the documents a run writes (src/mergemate/application/services/documentation_service.py): the
    slug of the plan summary, and the first free file name. */
module Documents {

  // ---------------------------------------------------------------- decimal numbers

  predicate Decimal(s: string) {
    forall i :: 0 <= i < |s| ==> '0' <= s[i] <= '9'
  }

  function Digit(k: nat): (c: char)
    requires k < 10
    ensures c as int == '0' as int + k
  {
    '0' + k as char
  }

  function Digits(n: nat): (d: string)
    ensures d != "" && Decimal(d)
  {
    (if n < 10 then "" else Digits(n / 10)) + [Digit(n % 10)]
  }

  lemma {:induction false} DigitsInjective(m: nat, n: nat)
    requires Digits(m) == Digits(n)
    ensures m == n
  {
    var a, b := Digits(m), Digits(n);
    assert a[|a| - 1] == b[|b| - 1];
    assert a[..|a| - 1] == b[..|b| - 1];
    assert a[..|a| - 1] == if m < 10 then "" else Digits(m / 10);
    assert b[..|b| - 1] == if n < 10 then "" else Digits(n / 10);
    if m >= 10 && n >= 10 {
      DigitsInjective(m / 10, n / 10);
    }
  }

  /** The number a decimal text stands for. */
  function Number(digits: string): nat
    requires Decimal(digits)
  {
    if digits == "" then 0
    else
      var last := digits[|digits| - 1];
      assert '0' <= last <= '9';
      Number(digits[..|digits| - 1]) * 10 + (last as int - '0' as int)
  }

  lemma NumberAppends(q: string, k: nat)
    requires k < 10 && Decimal(q)
    ensures Decimal(q + [Digit(k)]) && Number(q + [Digit(k)]) == Number(q) * 10 + k
  {
    assert (q + [Digit(k)])[..|q|] == q;
  }

  lemma TenfoldAndRest(n: nat)
    ensures n == (n / 10) * 10 + n % 10 && n % 10 < 10
  {
  }

  /** Decimal rendering reads back as the number. */
  lemma {:induction false} DigitsReadBack(n: nat)
    ensures Number(Digits(n)) == n
  {
    TenfoldAndRest(n);
    if n >= 10 {
      DigitsReadBack(n / 10);
      NumberAppends(Digits(n / 10), n % 10);
    } else {
      NumberAppends("", n);
      assert Digits(n) == "" + [Digit(n)];
    }
  }

  /** And has no leading zero. */
  lemma {:induction false} NoLeadingZero(n: nat)
    requires n > 0
    ensures Digits(n)[0] != '0'
  {
    if n >= 10 {
      NoLeadingZero(n / 10);
    }
  }

  // ---------------------------------------------------------------- the file name

  function Root(slug: string, suffix: string, iteration: nat): string {
    var named := if suffix != "" then slug + "-" + suffix else slug;
    if iteration > 1 then named + "-iteration-" + Digits(iteration) else named
  }

  function Plain(root: string): string {
    root + ".md"
  }

  function Numbered(root: string, counter: nat): string {
    root + "-" + Digits(counter) + ".md"
  }

  lemma NumberedInjective(root: string, m: nat, n: nat)
    requires Numbered(root, m) == Numbered(root, n)
    ensures m == n
  {
    var a, b := Numbered(root, m), Numbered(root, n);
    assert a[|root| + 1..|a| - 3] == Digits(m) && b[|root| + 1..|b| - 3] == Digits(n);
    DigitsInjective(m, n);
  }

  /** Documents of different iterations, which count from 1, never ask for the same name. */
  lemma IterationsNamedApart(slug: string, suffix: string, m: nat, n: nat)
    ensures Plain(Root(slug, suffix, m)) == Plain(Root(slug, suffix, n)) <==> m == n || (m <= 1 && n <= 1)
  {
    var a, b := Root(slug, suffix, m), Root(slug, suffix, n);
    assert Plain(a)[..|a|] == a && Plain(b)[..|b|] == b;
    if a == b && 1 < m && 1 < n {
      var named := Root(slug, suffix, 1);
      assert a == named + "-iteration-" + Digits(m) && b == named + "-iteration-" + Digits(n);
      assert a[|named| + 11..] == Digits(m) && b[|named| + 11..] == Digits(n);
      DigitsInjective(m, n);
    }
  }

  function Kind(suffix: string): string {
    if suffix == "" then "" else "-" + suffix
  }

  function Round(iteration: nat): string {
    if iteration > 1 then "-iteration-" + Digits(iteration) else ""
  }

  lemma Assoc(a: string, b: string, c: string)
    ensures (a + b) + c == a + (b + c)
  {
  }

  lemma Unit(a: string)
    ensures a + "" == a && "" + a == a
  {
  }

  lemma RootIs(slug: string, suffix: string, iteration: nat)
    ensures Root(slug, suffix, iteration) == slug + Kind(suffix) + Round(iteration)
  {
    var named := slug + Kind(suffix);
    if suffix == "" {
      Unit(slug);
    } else {
      Assoc(slug, "-", suffix);
    }
    if iteration > 1 {
      Assoc(named, "-iteration-", Digits(iteration));
    } else {
      Unit(named);
    }
  }

  lemma Cancels(head: string, a: string, b: string, tail: string)
    requires head + a + tail == head + b + tail
    ensures a == b
  {
    assert |a| == |b|;
    assert a == (head + a + tail)[|head|..|head| + |a|];
    assert b == (head + b + tail)[|head|..|head| + |b|];
  }

  /** Documents of different kinds do not either. */
  lemma KindsNamedApart(slug: string, s: string, t: string, iteration: nat)
    ensures Plain(Root(slug, s, iteration)) == Plain(Root(slug, t, iteration)) <==> s == t
  {
    RootIs(slug, s, iteration);
    RootIs(slug, t, iteration);
    if Plain(Root(slug, s, iteration)) == Plain(Root(slug, t, iteration)) {
      var a, b := Root(slug, s, iteration), Root(slug, t, iteration);
      assert "" + a == a && "" + b == b;
      Cancels("", a, b, ".md");
      Cancels(slug, Kind(s), Kind(t), Round(iteration));
      assert s == if s == "" then "" else Kind(s)[1..];
      assert t == if t == "" then "" else Kind(t)[1..];
    }
  }

  /** The existing files that are numbered names from `counter` on: what the search can still run into. */
  ghost function InTheWay(root: string, existing: set<string>, counter: nat): set<string> {
    set f | f in existing && IsNumberedFrom(root, f, counter)
  }

  ghost predicate IsNumberedFrom(root: string, file: string, counter: nat) {
    exists n: nat :: counter <= n && file == Numbered(root, n)
  }

  lemma FewerInTheWay(root: string, existing: set<string>, counter: nat)
    requires Numbered(root, counter) in existing
    ensures InTheWay(root, existing, counter + 1) < InTheWay(root, existing, counter)
  {
    var f := Numbered(root, counter);
    assert IsNumberedFrom(root, f, counter);
    assert f in InTheWay(root, existing, counter);
    assert !IsNumberedFrom(root, f, counter + 1) by {
      forall n: nat | counter + 1 <= n ensures f != Numbered(root, n) {
        if f == Numbered(root, n) {
          NumberedInjective(root, counter, n);
        }
      }
    }
    forall g | g in InTheWay(root, existing, counter + 1) ensures g in InTheWay(root, existing, counter) {
      var n: nat :| counter + 1 <= n && g == Numbered(root, n);
      assert IsNumberedFrom(root, g, counter);
    }
  }

  /** Terminates for every finite set of existing files with a free name: the plain one if it is free, else
      the one with the least free counter from 2 on. */
  method BuildDocumentPath(slug: string, suffix: string, iteration: nat, existing: set<string>)
    returns (path: string, counter: nat)
    ensures path !in existing
    ensures var root := slug + (if suffix == "" then "" else "-" + suffix)
                        + (if iteration > 1 then "-iteration-" + Digits(iteration) else "");
            path == if root + ".md" !in existing then root + ".md" else root + "-" + Digits(counter) + ".md"
    ensures var root := Root(slug, suffix, iteration);
            if Plain(root) !in existing then path == Plain(root)
            else counter >= 2 && path == Numbered(root, counter)
                 && forall n: nat :: 2 <= n < counter ==> Numbered(root, n) in existing
  {
    var root := Root(slug, suffix, iteration);
    RootIs(slug, suffix, iteration);
    counter := 2;
    path := Plain(root);
    if path !in existing {
      return;
    }
    path := Numbered(root, counter);
    while path in existing
      invariant counter >= 2 && path == Numbered(root, counter)
      invariant forall n: nat :: 2 <= n < counter ==> Numbered(root, n) in existing
      decreases InTheWay(root, existing, counter)
    {
      FewerInTheWay(root, existing, counter);
      counter := counter + 1;
      path := Numbered(root, counter);
    }
  }

  // ---------------------------------------------------------------- slugs

  function Lower(s: string): string {
    if s == "" then ""
    else [if 'A' <= s[0] <= 'Z' then (s[0] as int + 32) as char else s[0]] + Lower(s[1..])
  }

  predicate Plainest(c: char) {
    'a' <= c <= 'z' || '0' <= c <= '9'
  }

  function SkipOthers(s: string): string {
    if s != "" && !Plainest(s[0]) then SkipOthers(s[1..]) else s
  }

  lemma {:induction false} SkipShrinks(s: string)
    ensures |SkipOthers(s)| <= |s| && (SkipOthers(s) != "" ==> Plainest(SkipOthers(s)[0]))
    ensures Letters(SkipOthers(s)) == Letters(s)
  {
    if s != "" && !Plainest(s[0]) {
      SkipShrinks(s[1..]);
    }
  }

  /** Every run of characters outside a-z and 0-9 becomes one dash. */
  function Dashed(s: string): string
    decreases |s|
  {
    if s == "" then ""
    else if Plainest(s[0]) then [s[0]] + Dashed(s[1..])
    else
      SkipShrinks(s[1..]);
      "-" + Dashed(SkipOthers(s[1..]))
  }

  function LTrim(s: string): string {
    if s != "" && s[0] == '-' then LTrim(s[1..]) else s
  }

  function RTrim(s: string): string {
    if s != "" && s[|s| - 1] == '-' then RTrim(s[..|s| - 1]) else s
  }

  const LIMIT: nat := 80
  const FALLBACK := "work-item"

  function Cut(s: string): string {
    if |s| > LIMIT then s[..LIMIT] else s
  }

  /** `text` is what Unicode normalization and the ASCII encoding leave of the summary. */
  function Slugify(text: string): string {
    var slug := RTrim(Cut(RTrim(LTrim(Dashed(Lower(text))))));
    if slug == "" then FALLBACK else slug
  }

  predicate SlugChars(s: string) {
    forall i :: 0 <= i < |s| ==> Plainest(s[i]) || s[i] == '-'
  }

  predicate NoDoubleDash(s: string) {
    forall i :: 0 <= i < |s| - 1 ==> !(s[i] == '-' && s[i + 1] == '-')
  }

  predicate IsSlug(s: string) {
    && 1 <= |s| <= LIMIT
    && SlugChars(s) && NoDoubleDash(s)
    && s[0] != '-' && s[|s| - 1] != '-'
  }

  /** The letters and digits of a text, in order. */
  function Letters(s: string): string {
    if s == "" then "" else (if Plainest(s[0]) then [s[0]] else "") + Letters(s[1..])
  }

  lemma {:induction false} DashedShape(s: string)
    ensures SlugChars(Dashed(s)) && NoDoubleDash(Dashed(s))
    ensures Dashed(s) != "" && s != "" && Plainest(s[0]) ==> Dashed(s)[0] != '-'
    ensures Letters(Dashed(s)) == Letters(s)
    decreases |s|
  {
    if s != "" {
      if Plainest(s[0]) {
        DashedShape(s[1..]);
        assert Dashed(s)[1..] == Dashed(s[1..]);
      } else {
        SkipShrinks(s[1..]);
        DashedShape(SkipOthers(s[1..]));
        assert Dashed(s)[1..] == Dashed(SkipOthers(s[1..]));
      }
    }
  }

  lemma {:induction false} LTrimShape(s: string)
    requires SlugChars(s) && NoDoubleDash(s)
    ensures SlugChars(LTrim(s)) && NoDoubleDash(LTrim(s)) && (LTrim(s) != "" ==> LTrim(s)[0] != '-')
    ensures Letters(LTrim(s)) == Letters(s)
  {
    if s != "" && s[0] == '-' {
      assert forall i :: 0 <= i < |s[1..]| ==> s[1..][i] == s[i + 1];
      LTrimShape(s[1..]);
    }
  }

  lemma {:induction false} RTrimShape(s: string)
    requires SlugChars(s) && NoDoubleDash(s)
    ensures RTrim(s) <= s && (RTrim(s) != "" ==> RTrim(s)[|RTrim(s)| - 1] != '-')
    ensures SlugChars(RTrim(s)) && NoDoubleDash(RTrim(s))
    ensures Letters(RTrim(s)) == Letters(s)
  {
    if s != "" && s[|s| - 1] == '-' {
      var t := s[..|s| - 1];
      RTrimShape(t);
      LettersAppend(t, "-");
      assert s == t + "-";
    }
  }

  lemma {:induction false} LettersAppend(a: string, b: string)
    ensures Letters(a + b) == Letters(a) + Letters(b)
  {
    if a == "" {
      assert a + b == b;
    } else {
      var head := if Plainest(a[0]) then [a[0]] else "";
      LettersAppend(a[1..], b);
      calc {
        Letters(a + b);
        { assert (a + b)[0] == a[0] && (a + b)[1..] == a[1..] + b; }
        head + Letters(a[1..] + b);
        head + (Letters(a[1..]) + Letters(b));
        Letters(a) + Letters(b);
      }
    }
  }

  lemma {:induction false} SomeLetter(s: string)
    requires SlugChars(s) && s != "" && s[0] != '-'
    ensures Letters(s) != "" && RTrim(s) != ""
    decreases |s|
  {
    if s[|s| - 1] == '-' {
      SomeLetter(s[..|s| - 1]);
    }
  }

  /** What is trimmed at both ends starts and ends with a letter or digit, or there was none. */
  lemma TrimmedShape(dashed: string)
    requires SlugChars(dashed) && NoDoubleDash(dashed)
    ensures var t := RTrim(LTrim(dashed));
            && SlugChars(t) && NoDoubleDash(t) && Letters(t) == Letters(dashed)
            && (t != "" ==> t[0] != '-' && t[|t| - 1] != '-' && Letters(t) != "")
  {
    LTrimShape(dashed);
    var l := LTrim(dashed);
    RTrimShape(l);
    if RTrim(l) != "" {
      assert RTrim(l)[0] == l[0];
      SomeLetter(RTrim(l));
    }
  }

  lemma CutKeeps(t: string)
    requires SlugChars(t) && NoDoubleDash(t)
    ensures Cut(t) <= t && |Cut(t)| <= LIMIT && (t != "" ==> Cut(t) != "")
    ensures SlugChars(Cut(t)) && NoDoubleDash(Cut(t)) && Letters(Cut(t)) <= Letters(t)
  {
    LettersAppend(Cut(t), t[|Cut(t)|..]);
    assert t == Cut(t) + t[|Cut(t)|..];
  }

  lemma CutShape(t: string)
    requires SlugChars(t) && NoDoubleDash(t) && t != "" && t[0] != '-'
    ensures IsSlug(RTrim(Cut(t))) && Letters(RTrim(Cut(t))) <= Letters(t)
  {
    CutKeeps(t);
    var c := Cut(t);
    assert c[0] == t[0];
    RTrimShape(c);
    SomeLetter(c);
    assert RTrim(c)[0] == c[0];
  }

  /** A slug is never empty, has at most 80 characters, all of them letters, digits or single inner dashes;
      its letters are those of the lower-cased text, up to the cut, and the fallback stands only for a text
      without any. */
  lemma SlugShape(text: string)
    ensures IsSlug(Slugify(text))
    ensures Letters(Lower(text)) != "" ==> Letters(Slugify(text)) <= Letters(Lower(text))
    ensures Letters(Lower(text)) == "" ==> Slugify(text) == FALLBACK
  {
    DashedShape(Lower(text));
    TrimmedShape(Dashed(Lower(text)));
    var t := RTrim(LTrim(Dashed(Lower(text))));
    if t != "" {
      CutShape(t);
    }
  }

  lemma {:induction false} LowerKeepsSlug(s: string)
    requires SlugChars(s)
    ensures Lower(s) == s
  {
    if s != "" {
      assert forall i :: 0 <= i < |s[1..]| ==> s[1..][i] == s[i + 1];
      LowerKeepsSlug(s[1..]);
    }
  }

  lemma {:induction false} DashedKeepsSlug(s: string)
    requires SlugChars(s) && NoDoubleDash(s)
    ensures Dashed(s) == s
    decreases |s|
  {
    if s != "" {
      assert forall i :: 0 <= i < |s[1..]| ==> s[1..][i] == s[i + 1];
      DashedKeepsSlug(s[1..]);
      assert s == [s[0]] + s[1..];
      assert s[0] == '-' ==> SkipOthers(s[1..]) == s[1..];
    }
  }

  /** Slugs are fixed points, so slugifying twice is slugifying once. */
  lemma SlugifyFixesSlugs(s: string)
    requires IsSlug(s)
    ensures Slugify(s) == s
  {
    LowerKeepsSlug(s);
    DashedKeepsSlug(s);
  }

  lemma SlugifyIdempotent(text: string)
    ensures Slugify(Slugify(text)) == Slugify(text)
  {
    SlugShape(text);
    SlugifyFixesSlugs(Slugify(text));
  }

  // ---------------------------------------------------------------- a slug is the words of the text

  /** The maximal runs of letters and digits, in order. */
  function Words(s: string): (words: seq<string>)
    ensures s != "" && Plainest(s[0]) ==> words != []
    ensures forall w :: w in words ==> w != "" && forall i :: 0 <= i < |w| ==> Plainest(w[i])
  {
    if s == "" then []
    else
      var rest := Words(s[1..]);
      if !Plainest(s[0]) then rest
      else if |s| > 1 && Plainest(s[1]) then [[s[0]] + rest[0]] + rest[1..]
      else [[s[0]]] + rest
  }

  function Joined(words: seq<string>): string {
    if words == [] then ""
    else if |words| == 1 then words[0]
    else words[0] + "-" + Joined(words[1..])
  }

  lemma {:induction false} JoinedEnds(words: seq<string>)
    requires words != [] && forall w :: w in words ==> w != "" && forall i :: 0 <= i < |w| ==> Plainest(w[i])
    ensures Joined(words) != "" && Plainest(Joined(words)[0]) && Plainest(Joined(words)[|Joined(words)| - 1])
  {
    assert words[0] in words;
    if |words| > 1 {
      JoinedEnds(words[1..]);
    }
  }

  lemma JoinedGrows(c: char, words: seq<string>)
    ensures words != [] ==> Joined([[c] + words[0]] + words[1..]) == [c] + Joined(words)
    ensures Joined([[c]] + words) == if words == [] then [c] else [c] + ("-" + Joined(words))
  {
    if words != [] {
      var grown := [[c] + words[0]] + words[1..];
      assert grown[1..] == words[1..];
      if |words| > 1 {
        assert [c] + words[0] + "-" + Joined(words[1..]) == [c] + (words[0] + "-" + Joined(words[1..]));
      }
      var longer := [[c]] + words;
      assert longer[1..] == words;
    }
  }

  lemma {:induction false} SkipKeepsWords(s: string)
    ensures Words(SkipOthers(s)) == Words(s)
    ensures SkipOthers(s) == "" || (Plainest(SkipOthers(s)[0]) && SkipOthers(s)[|SkipOthers(s)| - 1] == s[|s| - 1])
  {
    if s != "" && !Plainest(s[0]) {
      SkipKeepsWords(s[1..]);
    }
  }

  function Framed(s: string): string {
    if s == "" then ""
    else if Words(s) == [] then "-"
    else Dash(!Plainest(s[0])) + (Joined(Words(s)) + Dash(!Plainest(s[|s| - 1])))
  }

  function Dash(yes: bool): string {
    if yes then "-" else ""
  }

  lemma Framings(c: string, j: string, trail: string)
    ensures "" + ((c + j) + trail) == c + ("" + (j + trail))
    ensures "" + ((c + ("-" + j)) + trail) == c + ("-" + (j + trail))
  {
  }

  lemma FramedPlain(s: string)
    requires s != "" && Plainest(s[0])
    ensures Framed(s) == [s[0]] + Framed(s[1..])
  {
    var c, rest := s[0], s[1..];
    if rest == "" {
      assert Words(s) == [[c]];
      assert Framed(s) == "" + ([c] + "");
    } else {
      assert s[|s| - 1] == rest[|rest| - 1];
      FramedMore(c, rest, s);
    }
  }

  lemma FramedMore(c: char, rest: string, s: string)
    requires rest != "" && s == [c] + rest && Plainest(c) && s[1..] == rest
    ensures Framed(s) == [c] + Framed(rest)
  {
    var words := Words(rest);
    var trail := Dash(!Plainest(rest[|rest| - 1]));
    assert s[|s| - 1] == rest[|rest| - 1] && s[1] == rest[0];
    JoinedGrows(c, words);
    Framings([c], Joined(words), trail);
    if words == [] {
      NoWordsNoLetters(rest);
      assert Words(s) == [[c]];
      assert Framed(s) == "" + ([c] + "-");
    } else {
      assert Framed(s) == "" + (Joined(Words(s)) + trail);
    }
  }

  lemma {:induction false} NoWordsNoLetters(s: string)
    requires s != "" && Words(s) == []
    ensures !Plainest(s[|s| - 1])
  {
    if |s| > 1 {
      NoWordsNoLetters(s[1..]);
    }
  }

  lemma {:induction false} DashedIsFramed(s: string)
    ensures Dashed(s) == Framed(s)
    decreases |s|
  {
    if s != "" {
      if Plainest(s[0]) {
        DashedIsFramed(s[1..]);
        FramedPlain(s);
      } else {
        SkipShrinks(s[1..]);
        DashedIsFramed(SkipOthers(s[1..]));
        FramedOther(s);
      }
    }
  }

  lemma FramedOther(s: string)
    requires s != "" && !Plainest(s[0])
    ensures Framed(s) == "-" + Framed(SkipOthers(s[1..]))
  {
    var rest := SkipOthers(s[1..]);
    SkipKeepsWords(s[1..]);
    SkipShrinks(s[1..]);
    if rest == "" {
      Unit("-");
    } else {
      assert s[|s| - 1] == s[1..][|s| - 2] == rest[|rest| - 1];
      assert Words(s) == Words(rest) && Words(rest) != [];
      Unit(Joined(Words(rest)) + Dash(!Plainest(rest[|rest| - 1])));
    }
  }

  lemma LTrims(y: string)
    requires y != "" && y[0] != '-'
    ensures LTrim(y) == y && LTrim("-" + y) == y
  {
    assert ("-" + y)[1..] == y;
  }

  lemma RTrims(x: string)
    requires x != "" && x[|x| - 1] != '-'
    ensures RTrim(x) == x && RTrim(x + "-") == x
  {
    assert (x + "-")[..|x|] == x;
  }

  lemma TrimmedIsWords(s: string)
    ensures RTrim(LTrim(Dashed(s))) == Joined(Words(s))
  {
    DashedIsFramed(s);
    if Words(s) != [] {
      var j, trail := Joined(Words(s)), Dash(!Plainest(s[|s| - 1]));
      JoinedEnds(Words(s));
      assert (j + trail)[0] == j[0];
      LTrims(j + trail);
      RTrims(j);
      assert "" + (j + trail) == j + trail && j + "" == j;
    } else if s != "" {
      assert "-"[1..] == "";
    }
  }

  lemma CutWords(j: string)
    requires NoDoubleDash(j) && (j != "" ==> j[|j| - 1] != '-')
    ensures RTrim(Cut(j)) == if |j| <= 80 then j else if j[79] == '-' then j[..79] else j[..80]
  {
    if |j| > 80 {
      var cut := j[..80];
      assert cut[..79] == j[..79];
      if j[79] == '-' {
        assert j[78] != '-';
        RTrims(j[..79]);
      }
    }
  }

  /** A slug is the words of the lower-cased text joined by dashes; beyond 80 characters it is cut there, or
      one character before if the cut would end in a dash; without any word it is the fallback. */
  lemma SlugJoinsWords(text: string)
    ensures var j := Joined(Words(Lower(text)));
            Slugify(text) == if j == "" then "work-item"
                             else if |j| <= 80 then j
                             else if j[79] == '-' then j[..79] else j[..80]
  {
    var s := Lower(text);
    TrimmedIsWords(s);
    DashedShape(s);
    TrimmedShape(Dashed(s));
    CutWords(Joined(Words(s)));
  }

  /** Lower-casing goes character by character and reaches the capital letters alone. */
  lemma {:induction false} LowerAt(s: string, i: nat)
    requires i < |s|
    ensures |Lower(s)| == |s|
    ensures Lower(s)[i] == if 'A' <= s[i] <= 'Z' then (s[i] as int - 'A' as int + 'a' as int) as char else s[i]
  {
    if |s| > 1 {
      LowerAt(s[1..], if i == 0 then 0 else i - 1);
    }
  }
}
