/** Writing a search query for FTS5 and reading it back
    (src/mergemate/infrastructure/persistence/sqlite_common.py). */
module FtsQuery {
  import opened Whitespace
  import opened Wrappers

  const QUOTE := '"'
  const AND := " AND "

  // ---------------------------------------------------------------- writing

  /** `token.replace('"', '""')`. */
  function Doubled(token: string): string {
    if token == "" then ""
    else (if token[0] == QUOTE then [QUOTE, QUOTE] else [token[0]]) + Doubled(token[1..])
  }

  function Quote(token: string): string {
    [QUOTE] + Doubled(token) + [QUOTE]
  }

  function Join(tokens: seq<string>): string {
    if tokens == [] then ""
    else if |tokens| == 1 then Quote(tokens[0])
    else Quote(tokens[0]) + AND + Join(tokens[1..])
  }

  function StripLeft(s: string): string {
    if s != "" && Space(s[0]) then StripLeft(s[1..]) else s
  }

  function StripRight(s: string): string {
    if s != "" && Space(s[|s| - 1]) then StripRight(s[..|s| - 1]) else s
  }

  function Strip(s: string): string {
    StripRight(StripLeft(s))
  }

  /** The tokens that are left when each is stripped and blank ones are dropped. */
  function Normalized(tokens: seq<string>): seq<string> {
    if tokens == [] then []
    else (if Strip(tokens[0]) == "" then [] else [Strip(tokens[0])]) + Normalized(tokens[1..])
  }

  /** `tokens` is what the shell-style split, or the plain split, made of the query text. */
  function BuildQuery(tokens: seq<string>): Option<string> {
    if Normalized(tokens) == [] then None else Some(Join(Normalized(tokens)))
  }

  // ---------------------------------------------------------------- reading

  /** Reads the rest of an FTS5 string after its opening quote: two quotes stand for one, a single quote
      closes. Gives the text and what follows it. */
  function ReadString(s: string): Option<(string, string)> {
    if s == "" then None
    else if s[0] != '"' then
      var rest := ReadString(s[1..]);
      if rest.None? then None else Some(([s[0]] + rest.value.0, rest.value.1))
    else if |s| >= 2 && s[1] == '"' then
      var rest := ReadString(s[2..]);
      if rest.None? then None else Some((['"'] + rest.value.0, rest.value.1))
    else Some(("", s[1..]))
  }

  function SkipSpaces(s: string): string {
    if s != "" && s[0] == ' ' then SkipSpaces(s[1..]) else s
  }

  lemma {:induction false} ReadStringShrinks(s: string)
    ensures ReadString(s).Some? ==> |ReadString(s).value.1| < |s|
  {
    if s != "" {
      if s[0] != '"' {
        ReadStringShrinks(s[1..]);
      } else if |s| >= 2 && s[1] == '"' {
        ReadStringShrinks(s[2..]);
      }
    }
  }

  lemma {:induction false} SkipSpacesShrinks(s: string)
    ensures |SkipSpaces(s)| <= |s|
  {
    if s != "" && s[0] == ' ' {
      SkipSpacesShrinks(s[1..]);
    }
  }

  /** Reads strings separated by the operator AND, with spaces free around both. */
  function ReadQuery(s: string): Option<seq<string>>
    decreases |s|
  {
    SkipSpacesShrinks(s);
    var t := SkipSpaces(s);
    if t == "" || t[0] != '"' then None
    else
      ReadStringShrinks(t[1..]);
      var first := ReadString(t[1..]);
      if first.None? then None
      else
        SkipSpacesShrinks(first.value.1);
        var u := SkipSpaces(first.value.1);
        if u == "" then Some([first.value.0])
        else if |u| >= 3 && u[..3] == "AND" then
          var rest := ReadQuery(u[3..]);
          if rest.None? then None else Some([first.value.0] + rest.value)
        else None
  }

  // ---------------------------------------------------------------- round trip

  lemma {:induction false} ReadsDoubled(token: string, rest: string)
    requires rest == "" || rest[0] != QUOTE
    ensures ReadString(Doubled(token) + [QUOTE] + rest) == Some((token, rest))
  {
    var s := Doubled(token) + [QUOTE] + rest;
    if token == "" {
      assert s == [QUOTE] + rest;
      assert s[1..] == rest;
    } else {
      ReadsDoubled(token[1..], rest);
      var tail := Doubled(token[1..]) + [QUOTE] + rest;
      if token[0] == QUOTE {
        assert s == [QUOTE, QUOTE] + tail;
        assert s[2..] == tail;
      } else {
        assert s == [token[0]] + tail;
        assert s[1..] == tail;
      }
      assert token == [token[0]] + token[1..];
    }
  }

  /** A quoted token is read first, whatever query or end follows it. */
  lemma ReadsFirst(token: string, rest: string)
    requires rest == "" || rest[0] != QUOTE
    ensures var s := Quote(token) + rest;
            SkipSpaces(s) == s && s[0] == QUOTE && ReadString(s[1..]) == Some((token, rest))
  {
    var s := Quote(token) + rest;
    assert s == [QUOTE] + (Doubled(token) + [QUOTE] + rest);
    assert s[1..] == Doubled(token) + [QUOTE] + rest;
    ReadsDoubled(token, rest);
  }

  /** The separator is read as the operator, and what follows it as the rest of the query. */
  lemma ReadsAnd(joined: string)
    requires joined != "" && joined[0] == QUOTE
    ensures var u := SkipSpaces(AND + joined);
            |u| >= 3 && u[..3] == "AND" && ReadQuery(u[3..]) == ReadQuery(joined)
  {
    var u := "AND " + joined;
    assert (AND + joined)[1..] == u;
    assert SkipSpaces(AND + joined) == u;
    assert u[3..] == " " + joined && (" " + joined)[1..] == joined;
    assert SkipSpaces(" " + joined) == joined == SkipSpaces(joined);
  }

  /** Whatever the tokens hold (quotes, spaces, the word AND, nothing at all), reading the joined query
      gives back exactly them. */
  lemma {:induction false} QueryRoundTrip(tokens: seq<string>)
    requires tokens != []
    ensures ReadQuery(Join(tokens)) == Some(tokens)
  {
    assert tokens == [tokens[0]] + tokens[1..];
    if |tokens| == 1 {
      assert tokens == [tokens[0]];
      assert Join(tokens) == Quote(tokens[0]) + "";
      ReadsLast(tokens[0]);
    } else {
      var joined := Join(tokens[1..]);
      assert Join(tokens) == Quote(tokens[0]) + (AND + joined);
      assert joined != "" && joined[0] == QUOTE;
      ReadsFirst(tokens[0], AND + joined);
      ReadsAnd(joined);
      QueryRoundTrip(tokens[1..]);
    }
  }

  lemma ReadsLast(token: string)
    ensures ReadQuery(Quote(token) + "") == Some([token])
  {
    ReadsFirst(token, "");
    assert SkipSpaces("") == "";
  }

  predicate Blank(token: string) {
    Strip(token) == ""
  }

  /** The query is absent exactly if every token is blank; otherwise it reads as the stripped tokens that
      are not blank, in order. */
  lemma {:induction false} BuildQueryReadsBack(tokens: seq<string>)
    ensures BuildQuery(tokens).None? <==> forall i :: 0 <= i < |tokens| ==> Blank(tokens[i])
    ensures BuildQuery(tokens).Some? ==> ReadQuery(BuildQuery(tokens).value) == Some(Normalized(tokens))
  {
    NothingLeftIffBlank(tokens);
    if Normalized(tokens) != [] {
      QueryRoundTrip(Normalized(tokens));
    }
  }

  lemma {:induction false} NothingLeftIffBlank(tokens: seq<string>)
    ensures Normalized(tokens) == [] <==> forall i :: 0 <= i < |tokens| ==> Blank(tokens[i])
  {
    if tokens != [] {
      NothingLeftIffBlank(tokens[1..]);
      assert forall i :: 0 <= i < |tokens| ==> tokens[i] == if i == 0 then tokens[0] else tokens[1..][i - 1];
    }
  }

  /** What a search for `tokens` asks for: the words its query reads as, none if there is no query. */
  function Asked(tokens: seq<string>): seq<string> {
    match BuildQuery(tokens)
    case None => []
    case Some(query) =>
      var words := ReadQuery(query);
      if words.Some? then words.value else []
  }

  lemma {:induction false} NormalizedAppends(a: seq<string>, b: seq<string>)
    ensures Normalized(a + b) == Normalized(a) + Normalized(b)
  {
    if a == [] {
      assert a + b == b;
    } else {
      assert (a + b)[0] == a[0] && (a + b)[1..] == a[1..] + b;
      NormalizedAppends(a[1..], b);
    }
  }

  /** Every token is asked for: a query for `a` and `b` together asks for what each of them does, in order. */
  lemma QueryAppends(a: seq<string>, b: seq<string>)
    ensures Asked(a + b) == Asked(a) + Asked(b)
  {
    NormalizedAppends(a, b);
    BuildQueryReadsBack(a);
    BuildQueryReadsBack(b);
    BuildQueryReadsBack(a + b);
  }

  /** A single token is asked for stripped, or not at all if it is white space throughout. */
  lemma QueryOfOne(token: string)
    ensures BuildQuery([token]).None? <==> forall i :: 0 <= i < |token| ==> Space(token[i])
    ensures BuildQuery([token]).Some? ==> ReadQuery(BuildQuery([token]).value) == Some([Strip(token)])
    ensures Asked([token]) == if Strip(token) == "" then [] else [Strip(token)]
  {
    assert [token][1..] == [];
    BuildQueryReadsBack([token]);
    var before, after := StripLaw(token);
    assert Normalized([token]) == if Strip(token) == "" then [] else [Strip(token)];
    if Strip(token) != "" {
      assert !Space(token[|before|]);
    }
  }

  predicate Blanks(s: string) {
    forall i :: 0 <= i < |s| ==> Space(s[i])
  }

  lemma {:induction false} StripLeftLaw(s: string) returns (before: string)
    ensures s == before + StripLeft(s) && Blanks(before)
    ensures StripLeft(s) != "" ==> !Space(StripLeft(s)[0])
  {
    before := "";
    if s != "" && Space(s[0]) {
      var rest := StripLeftLaw(s[1..]);
      before := [s[0]] + rest;
      assert s == [s[0]] + (rest + StripLeft(s[1..]));
    }
  }

  lemma Regrouped(s: string, init: string, last: string, kept: string, rest: string)
    requires s == init + last && init == kept + rest
    ensures s == kept + (rest + last)
  {
  }

  lemma {:induction false} StripRightLaw(s: string) returns (after: string)
    ensures s == StripRight(s) + after && Blanks(after)
    ensures StripRight(s) != "" ==> !Space(StripRight(s)[|StripRight(s)| - 1])
  {
    after := "";
    if s != "" && Space(s[|s| - 1]) {
      var init, last := s[..|s| - 1], [s[|s| - 1]];
      var rest := StripRightLaw(init);
      after := rest + last;
      Regrouped(s, init, last, StripRight(init), rest);
    }
  }

  /** A token is white space, then what is left of it stripped, then white space; and what is left neither
      begins nor ends with any. */
  lemma StripLaw(token: string) returns (before: string, after: string)
    ensures token == before + Strip(token) + after && Blanks(before) && Blanks(after)
    ensures Strip(token) != "" ==> !Space(Strip(token)[0]) && !Space(Strip(token)[|Strip(token)| - 1])
  {
    before := StripLeftLaw(token);
    after := StripRightLaw(StripLeft(token));
    assert token == before + (Strip(token) + after);
    assert Strip(token) != "" ==> Strip(token)[0] == StripLeft(token)[0];
  }

  /** Two lists of tokens that differ once normalized never make the same query. */
  lemma QueriesDiffer(a: seq<string>, b: seq<string>)
    ensures BuildQuery(a) == BuildQuery(b) <==> Normalized(a) == Normalized(b)
  {
    if Normalized(a) != [] && Normalized(b) != [] {
      QueryRoundTrip(Normalized(a));
      QueryRoundTrip(Normalized(b));
    }
  }
}
