/**
 Static configuration: yaml_utils.py prints the model table as comma-separated
 strings, utils.py parses them back into parallel lists.
 */
module StaticConfig {
  import opened Basics

  // ---- join and split ----

  function Join(parts: seq<string>, sep: char): string {
    if parts == [] then []
    else if |parts| == 1 then parts[0]
    else parts[0] + [sep] + Join(parts[1..], sep)
  }

  /** `str.split` on one character: always at least one piece. */
  function Split(s: string, sep: char): (pieces: seq<string>)
    ensures pieces != []
  {
    if s == [] then [[]]
    else
      var rest := Split(s[1..], sep);
      if s[0] == sep then [[]] + rest else [[s[0]] + rest[0]] + rest[1..]
  }

  ghost predicate Free(s: string, sep: char) {
    sep !in s
  }

  ghost predicate AllFree(parts: seq<string>, sep: char) {
    forall i :: 0 <= i < |parts| ==> Free(parts[i], sep)
  }

  lemma {:induction false} SplitOne(s: string, sep: char)
    requires Free(s, sep)
    ensures Split(s, sep) == [s]
  {
    if s != [] {
      SplitOne(s[1..], sep);
      assert s == [s[0]] + s[1..];
    }
  }

  lemma {:induction false} SplitFirst(s: string, t: string, sep: char)
    requires Free(s, sep)
    ensures Split(s + [sep] + t, sep) == [s] + Split(t, sep)
  {
    var whole := s + [sep] + t;
    if s == [] {
      assert whole[1..] == t;
    } else {
      SplitFirst(s[1..], t, sep);
      assert whole[1..] == s[1..] + [sep] + t;
      assert s == [s[0]] + s[1..];
    }
  }

  /** Splitting undoes joining, for at least one piece and none that holds the separator. */
  lemma {:induction false} SplitJoin(parts: seq<string>, sep: char)
    requires parts != [] && AllFree(parts, sep)
    ensures Split(Join(parts, sep), sep) == parts
  {
    if |parts| == 1 {
      SplitOne(parts[0], sep);
    } else {
      SplitJoin(parts[1..], sep);
      SplitFirst(parts[0], Join(parts[1..], sep), sep);
    }
  }

  lemma {:induction false} JoinSplit(s: string, sep: char)
    ensures Join(Split(s, sep), sep) == s
  {
    if s != [] {
      JoinSplit(s[1..], sep);
      var rest := Split(s[1..], sep);
      assert s == [s[0]] + s[1..];
      if s[0] == sep {
        assert ([[]] + rest)[1..] == rest;
      } else {
        assert ([[s[0]] + rest[0]] + rest[1..])[1..] == rest[1..];
        if |rest| > 1 {
          assert [s[0]] + (rest[0] + [sep] + Join(rest[1..], sep)) == ([s[0]] + rest[0]) + [sep] + Join(rest[1..], sep);
        }
      }
    }
  }

  lemma {:induction false} SplitPiecesFree(s: string, sep: char)
    ensures AllFree(Split(s, sep), sep)
  {
    if s != [] {
      SplitPiecesFree(s[1..], sep);
    }
  }

  /** Splitting leaves nothing out: another character in a piece was in the string. */
  lemma {:induction false} SplitPiecesWithin(s: string, sep: char, i: nat, c: char)
    requires i < |Split(s, sep)| && c in Split(s, sep)[i]
    ensures c in s
  {
    if s[0] == sep {
      SplitPiecesWithin(s[1..], sep, i - 1, c);
    } else if i > 0 {
      SplitPiecesWithin(s[1..], sep, i, c);
    } else if c != s[0] {
      SplitPiecesWithin(s[1..], sep, 0, c);
    }
  }

  // ---- Models and backends ----

  /** A model's entry; a model need not have static backends. */
  datatype Model = Model(name: string, backends: Option<seq<string>>)

  function BackendsOf(m: Model): seq<string> {
    if m.backends.Some? then m.backends.value else []
  }

  /** A model's backends, each with its name. */
  function Listed(m: Model): seq<(string, string)> {
    seq(|BackendsOf(m)|, i requires 0 <= i < |BackendsOf(m)| => (BackendsOf(m)[i], m.name))
  }

  /** Every backend with the name of its model, in the order of the table. */
  function Pairs(models: seq<Model>): seq<(string, string)> {
    if models == [] then []
    else
      var m := models[|models| - 1];
      Pairs(models[..|models| - 1]) + Listed(m)
  }

  function Firsts(pairs: seq<(string, string)>): seq<string> {
    seq(|pairs|, i requires 0 <= i < |pairs| => pairs[i].0)
  }

  function Seconds(pairs: seq<(string, string)>): seq<string> {
    seq(|pairs|, i requires 0 <= i < |pairs| => pairs[i].1)
  }

  /** A table is its models one after another. */
  lemma {:induction false} PairsAppend(a: seq<Model>, b: seq<Model>)
    ensures Pairs(a + b) == Pairs(a) + Pairs(b)
  {
    hide Listed;
    if b == [] {
      assert a + b == a;
    } else {
      var n := |b| - 1;
      PairsAppend(a, b[..n]);
      assert (a + b)[..|a + b| - 1] == a + b[..n] && (a + b)[|a + b| - 1] == b[n];
      PairsLast(a + b);
      PairsLast(b);
      hide Pairs;
      assert Pairs(a) + (Pairs(b[..n]) + Listed(b[n])) == (Pairs(a) + Pairs(b[..n])) + Listed(b[n]);
    }
  }

  lemma PairsLast(models: seq<Model>)
    requires models != []
    ensures Pairs(models) == Pairs(models[..|models| - 1]) + Listed(models[|models| - 1])
  {
  }

  /** A model with backends gives one pair for each, in order; any other gives none. */
  lemma PairsOfOne(m: Model)
    ensures m.backends.None? ==> Pairs([m]) == []
    ensures m.backends.Some? ==> Firsts(Pairs([m])) == m.backends.value
    ensures m.backends.Some? ==> Seconds(Pairs([m])) == seq(|m.backends.value|, _ => m.name)
  {
    assert [m][..0] == [];
  }

  lemma PairsSnoc(models: seq<Model>, i: nat)
    requires i < |models|
    ensures Firsts(Pairs(models[..i + 1])) == Firsts(Pairs(models[..i])) + BackendsOf(models[i])
    ensures Seconds(Pairs(models[..i + 1]))
            == Seconds(Pairs(models[..i])) + seq(|BackendsOf(models[i])|, _ => models[i].name)
  {
    assert models[..i + 1][..i] == models[..i];
  }

  /** `generate_static_backends` */
  method GenerateStaticBackends(models: seq<Model>) returns (s: string)
    ensures s == Join(Firsts(Pairs(models)), ',')
  {
    var staticBackends := [];
    for i := 0 to |models|
      invariant staticBackends == Firsts(Pairs(models[..i]))
    {
      PairsSnoc(models, i);
      if models[i].backends.Some? {
        staticBackends := staticBackends + models[i].backends.value;
      }
    }
    assert models[..|models|] == models;
    s := Join(staticBackends, ',');
  }

  /** `generate_static_models` */
  method GenerateStaticModels(models: seq<Model>) returns (s: string)
    ensures s == Join(Seconds(Pairs(models)), ',')
  {
    var staticModels := [];
    for i := 0 to |models|
      invariant staticModels == Seconds(Pairs(models[..i]))
    {
      PairsSnoc(models, i);
      if models[i].backends.Some? {
        staticModels := staticModels + seq(|models[i].backends.value|, _ => models[i].name);
      }
    }
    assert models[..|models|] == models;
    s := Join(staticModels, ',');
  }

  function OnlyValid(urls: seq<string>, valid: string -> bool): seq<string> {
    if urls == [] then []
    else OnlyValid(urls[..|urls| - 1], valid) + if valid(urls[|urls| - 1]) then [urls[|urls| - 1]] else []
  }

  /** `parse_static_urls`, for any URL test. */
  method ParseStaticUrls(staticBackends: string, valid: string -> bool) returns (urls: seq<string>)
    ensures urls == OnlyValid(Split(staticBackends, ','), valid)
  {
    var pieces := Split(staticBackends, ',');
    urls := [];
    for i := 0 to |pieces|
      invariant urls == OnlyValid(pieces[..i], valid)
    {
      assert pieces[..i + 1][..i] == pieces[..i];
      if valid(pieces[i]) {
        urls := urls + [pieces[i]];
      }
    }
    assert pieces[..|pieces|] == pieces;
  }

  /** Valid URLs stay where they stand, and only invalid ones go. */
  lemma {:induction false} OnlyValidAppend(a: seq<string>, b: seq<string>, valid: string -> bool)
    ensures OnlyValid(a + b, valid) == OnlyValid(a, valid) + OnlyValid(b, valid)
  {
    if b == [] {
      assert a + b == a;
    } else {
      var n := |b| - 1;
      OnlyValidAppend(a, b[..n], valid);
      assert (a + b)[..|a + b| - 1] == a + b[..n] && (a + b)[|a + b| - 1] == b[n];
      var last := if valid(b[n]) then [b[n]] else [];
      assert OnlyValid(a, valid) + (OnlyValid(b[..n], valid) + last) == (OnlyValid(a, valid) + OnlyValid(b[..n], valid)) + last;
    }
  }

  lemma OnlyValidOne(u: string, valid: string -> bool)
    ensures OnlyValid([u], valid) == if valid(u) then [u] else []
  {
    assert [u][..0] == [];
  }

  lemma {:induction false} OnlyValidAll(urls: seq<string>, valid: string -> bool)
    requires forall i :: 0 <= i < |urls| ==> valid(urls[i])
    ensures OnlyValid(urls, valid) == urls
  {
    if urls != [] {
      OnlyValidAll(urls[..|urls| - 1], valid);
    }
  }

  /** Valid URLs and names without commas. */
  ghost predicate Printable(pairs: seq<(string, string)>, valid: string -> bool) {
    forall i :: 0 <= i < |pairs| ==> valid(pairs[i].0) && Free(pairs[i].0, ',') && Free(pairs[i].1, ',')
  }

  /** What survives the URL test is valid, and as free of commas as the pieces were. */
  lemma {:induction false} OnlyValidKeeps(urls: seq<string>, valid: string -> bool, i: nat)
    requires i < |OnlyValid(urls, valid)|
    ensures valid(OnlyValid(urls, valid)[i])
    ensures OnlyValid(urls, valid)[i] in urls
  {
    var before := urls[..|urls| - 1];
    if i < |OnlyValid(before, valid)| {
      OnlyValidKeeps(before, valid, i);
    }
    assert urls == before + [urls[|urls| - 1]];
  }

  lemma ParsedIsPrintable(pairs: seq<(string, string)>, valid: string -> bool, backends: string, names: string)
    requires OnlyValid(Split(backends, ','), valid) == Firsts(pairs) && Split(names, ',') == Seconds(pairs)
    ensures Printable(pairs, valid)
  {
    SplitPiecesFree(backends, ',');
    SplitPiecesFree(names, ',');
    forall i | 0 <= i < |pairs| ensures valid(pairs[i].0) && Free(pairs[i].0, ',') && Free(pairs[i].1, ',') {
      OnlyValidKeeps(Split(backends, ','), valid, i);
      assert Firsts(pairs)[i] == pairs[i].0 && Seconds(pairs)[i] == pairs[i].1;
    }
  }

  /**
   Printing any table and parsing it back gives the two lists that list its pairs in
   order if and only if some model has a backend, every URL is valid, and no URL or
   model name holds a comma. With clean entries the two lists have the same length
   exactly when some model has a backend: with none, the names parse to one empty name.
   */
  lemma ConfigRoundTripExactly(models: seq<Model>, valid: string -> bool)
    ensures var pairs := Pairs(models);
            var urls := OnlyValid(Split(Join(Firsts(pairs), ','), ','), valid);
            var names := Split(Join(Seconds(pairs), ','), ',');
            && (urls == Firsts(pairs) && names == Seconds(pairs) <==> pairs != [] && Printable(pairs, valid))
            && (Printable(pairs, valid) && !valid("") ==> (|urls| == |names| <==> pairs != []))
  {
    var pairs := Pairs(models);
    if pairs == [] {
      assert Firsts(pairs) == [] && Seconds(pairs) == [];
      assert !valid("") ==> OnlyValid([""], valid) == [] by { assert [""][..0] == []; }
    } else if Printable(pairs, valid) {
      SplitJoin(Firsts(pairs), ',');
      SplitJoin(Seconds(pairs), ',');
      OnlyValidAll(Firsts(pairs), valid);
    } else {
      var backends, names := Join(Firsts(pairs), ','), Join(Seconds(pairs), ',');
      if OnlyValid(Split(backends, ','), valid) == Firsts(pairs) && Split(names, ',') == Seconds(pairs) {
        ParsedIsPrintable(pairs, valid, backends, names);
      }
    }
  }

  // ---- Aliases ----

  datatype Alias = Alias(alias: string, model: string)

  function Print(a: Alias): string {
    a.alias + ":" + a.model
  }

  function Printed(aliases: seq<Alias>): seq<string> {
    seq(|aliases|, i requires 0 <= i < |aliases| => Print(aliases[i]))
  }

  /** `generate_static_aliases` */
  function GenerateStaticAliases(aliases: seq<Alias>): string {
    Join(Printed(aliases), ',')
  }

  /** The dictionary after the given pieces, or the ValueError of a piece that is not `a:b`. */
  function Entered(pieces: seq<string>): Option<map<string, string>> {
    if pieces == [] then Some(map[])
    else
      var parts := Split(pieces[|pieces| - 1], ':');
      match Entered(pieces[..|pieces| - 1])
      case None => None
      case Some(m) => if |parts| == 2 then Some(m[parts[0] := parts[1]]) else None
  }

  /** `parse_static_aliases` */
  method ParseStaticAliases(staticAliases: string) returns (aliases: Option<map<string, string>>)
    ensures aliases == Entered(Split(staticAliases, ','))
  {
    var pieces := Split(staticAliases, ',');
    var entries: map<string, string> := map[];
    for i := 0 to |pieces|
      invariant Entered(pieces[..i]) == Some(entries)
    {
      assert pieces[..i + 1][..i] == pieces[..i];
      var parts := Split(pieces[i], ':');
      if |parts| != 2 {
        FailureStays(pieces, i + 1);
        return None;
      }
      entries := entries[parts[0] := parts[1]];
    }
    assert pieces[..|pieces|] == pieces;
    aliases := Some(entries);
  }

  lemma {:induction false} FailureStays(pieces: seq<string>, n: nat)
    requires n <= |pieces| && Entered(pieces[..n]).None?
    ensures Entered(pieces).None?
    decreases |pieces| - n
  {
    if n == |pieces| {
      assert pieces[..n] == pieces;
    } else {
      assert pieces[..n + 1][..n] == pieces[..n];
      FailureStays(pieces, n + 1);
    }
  }

  /** The piece is one alias and one model. */
  predicate WellFormed(piece: string) {
    |Split(piece, ':')| == 2
  }

  function AliasIn(piece: string): string {
    Split(piece, ':')[0]
  }

  function ModelIn(piece: string): string
    requires WellFormed(piece)
  {
    Split(piece, ':')[1]
  }

  /** Parsing fails exactly when some piece is not one alias and one model. */
  lemma {:induction false} ParsesExactly(pieces: seq<string>)
    ensures Entered(pieces).Some? <==> forall i :: 0 <= i < |pieces| ==> WellFormed(pieces[i])
  {
    hide Split;
    if pieces != [] {
      ParsesExactly(pieces[..|pieces| - 1]);
    }
  }

  lemma EnteredNext(pieces: seq<string>)
    requires pieces != [] && Entered(pieces).Some?
    ensures var before, last := pieces[..|pieces| - 1], pieces[|pieces| - 1];
            && WellFormed(last) && Entered(before).Some?
            && Entered(pieces).value == Entered(before).value[AliasIn(last) := ModelIn(last)]
  {
  }

  /** What parses holds every alias, each with the model of its last piece. */
  lemma {:induction false} LastPieceWins(pieces: seq<string>, i: nat)
    requires Entered(pieces).Some? && i < |pieces|
    ensures WellFormed(pieces[i]) && AliasIn(pieces[i]) in Entered(pieces).value
    ensures (forall j :: i < j < |pieces| ==> AliasIn(pieces[j]) != AliasIn(pieces[i])) ==>
              Entered(pieces).value[AliasIn(pieces[i])] == ModelIn(pieces[i])
  {
    hide Entered, WellFormed, AliasIn, ModelIn;
    EnteredNext(pieces);
    var n := |pieces| - 1;
    if i < n {
      LastPieceWins(pieces[..n], i);
      assert pieces[..n][i] == pieces[i];
    }
  }

  /** And holds no other. */
  lemma {:induction false} OnlyPieces(pieces: seq<string>, k: string)
    requires Entered(pieces).Some? && k in Entered(pieces).value
    ensures exists i :: 0 <= i < |pieces| && AliasIn(pieces[i]) == k
  {
    hide WellFormed, AliasIn, ModelIn, Split;
    var n := |pieces| - 1;
    EnteredNext(pieces);
    if k == AliasIn(pieces[n]) {
    } else {
      OnlyPieces(pieces[..n], k);
      var i :| 0 <= i < n && AliasIn(pieces[..n][i]) == k;
      assert pieces[i] == pieces[..n][i];
    }
  }

  ghost predicate CleanText(s: string) {
    Free(s, ',') && Free(s, ':')
  }

  ghost predicate CleanAliases(aliases: seq<Alias>) {
    forall i :: 0 <= i < |aliases| ==> CleanText(aliases[i].alias) && CleanText(aliases[i].model)
  }

  function Table(aliases: seq<Alias>): map<string, string> {
    if aliases == [] then map[]
    else
      var a := aliases[|aliases| - 1];
      Table(aliases[..|aliases| - 1])[a.alias := a.model]
  }

  ghost predicate DistinctAliases(aliases: seq<Alias>) {
    forall i, j :: 0 <= i < j < |aliases| ==> aliases[i].alias != aliases[j].alias
  }

  lemma {:induction false} TableHolds(aliases: seq<Alias>, i: nat)
    requires DistinctAliases(aliases) && i < |aliases|
    ensures aliases[i].alias in Table(aliases) && Table(aliases)[aliases[i].alias] == aliases[i].model
  {
    if i < |aliases| - 1 {
      TableHolds(aliases[..|aliases| - 1], i);
    }
  }

  lemma {:induction false} EnteredPrinted(aliases: seq<Alias>)
    requires CleanAliases(aliases)
    ensures Entered(Printed(aliases)) == Some(Table(aliases))
  {
    if aliases != [] {
      var before, a := aliases[..|aliases| - 1], aliases[|aliases| - 1];
      EnteredPrinted(before);
      assert Printed(aliases)[..|before|] == Printed(before);
      SplitFirst(a.alias, a.model, ':');
      SplitOne(a.model, ':');
    }
  }

  /** Whatever parses is clean. */
  lemma {:induction false} EnteredClean(pieces: seq<string>, k: string)
    requires AllFree(pieces, ',') && Entered(pieces).Some? && k in Entered(pieces).value
    ensures CleanText(k) && CleanText(Entered(pieces).value[k])
  {
    var last := pieces[|pieces| - 1];
    var parts := Split(last, ':');
    if k == parts[0] {
      SplitPiecesFree(last, ':');
      forall i | 0 <= i < 2 ensures Free(parts[i], ',') {
        if ',' in parts[i] {
          SplitPiecesWithin(last, ':', i, ',');
        }
      }
    } else {
      EnteredClean(pieces[..|pieces| - 1], k);
    }
  }

  /** An alias table parses back to itself if and only if it has an entry and no comma or colon anywhere. */
  lemma AliasRoundTripExactly(aliases: seq<Alias>)
    requires DistinctAliases(aliases)
    ensures Entered(Split(GenerateStaticAliases(aliases), ',')) == Some(Table(aliases))
            <==> aliases != [] && CleanAliases(aliases)
  {
    var text := GenerateStaticAliases(aliases);
    if aliases == [] {
      assert Printed(aliases) == [];
      assert Entered([""]).None? by { assert [""][..0] == []; }
    } else if CleanAliases(aliases) {
      forall i | 0 <= i < |aliases| ensures Free(Printed(aliases)[i], ',') {
      }
      SplitJoin(Printed(aliases), ',');
      EnteredPrinted(aliases);
    } else if Entered(Split(text, ',')) == Some(Table(aliases)) {
      SplitPiecesFree(text, ',');
      forall i | 0 <= i < |aliases| ensures CleanText(aliases[i].alias) && CleanText(aliases[i].model) {
        TableHolds(aliases, i);
        EnteredClean(Split(text, ','), aliases[i].alias);
      }
    }
  }
}
