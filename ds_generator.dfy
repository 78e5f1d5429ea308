/** The decisions of the datasource generator helper: the datasource name it
    recommends for a table name, and where a required input comes from (the
    command-line option, an error under `--no-wizard`, or an interactive
    prompt). The prompt is an oracle parameter; what the helper prints and asks
    is returned as a console trace. */
module DsGenerator {
  import opened Common

  function Last<T>(s: seq<T>): T
    requires |s| > 0
  {
    s[|s| - 1]
  }

  function DropLast<T>(s: seq<T>): seq<T>
    requires |s| > 0
  {
    s[..|s| - 1]
  }

  predicate OnlyDots(s: string) {
    forall i | 0 <= i < |s| :: s[i] == '.'
  }

  /* ---------------- Splitting on '.', as java.lang.String.split does ---------------- */

  /** Every piece between consecutive dots, empty pieces included: `s.split("\\.", -1)`. */
  function SplitAll(s: string): (pieces: seq<string>)
    ensures |pieces| >= 1
  {
    if s == [] then [[]]
    else
      var init := SplitAll(DropLast(s));
      if Last(s) == '.' then init + [[]]
      else DropLast(init) + [Last(init) + [Last(s)]]
  }

  /** Joining pieces back together with '.' between them. */
  function Join(pieces: seq<string>): string
    requires |pieces| >= 1
  {
    if |pieces| == 1 then pieces[0] else Join(DropLast(pieces)) + "." + Last(pieces)
  }

  /** What `split` with limit 0 does after splitting: trailing empty pieces go. */
  function DropTrailingEmpty(pieces: seq<string>): (r: seq<string>)
    ensures r <= pieces
    ensures r == [] || Last(r) != []
  {
    if pieces == [] then []
    else if Last(pieces) == [] then DropTrailingEmpty(DropLast(pieces))
    else pieces
  }

  /** `s.split("\\.")`: a string without a dot comes back whole (so `""`
      gives `[""]`); otherwise the pieces, less the trailing empty ones. */
  function JavaSplit(s: string): seq<string> {
    if '.' !in s then [s] else DropTrailingEmpty(SplitAll(s))
  }

  /* ---------------- An independent description of the last segment ---------------- */

  /** `s` without its trailing dots. */
  function TrimTrailingDots(s: string): (t: string)
    ensures t <= s && OnlyDots(s[|t|..])
    ensures t == [] || Last(t) != '.'
  {
    if s != [] && Last(s) == '.' then TrimTrailingDots(DropLast(s)) else s
  }

  /** The part of `s` after its last dot (all of `s` when it has none). */
  function AfterLastDot(s: string): (t: string)
    ensures '.' !in t
    ensures |t| <= |s| && t == s[|s| - |t|..]
    ensures |t| < |s| ==> s[|s| - |t| - 1] == '.'
  {
    if s == [] || Last(s) == '.' then [] else AfterLastDot(DropLast(s)) + [Last(s)]
  }

  /* ---------------- recommendedDatasourceName ---------------- */

  /** `Arrays.stream(table.split("\\.")).toList().getLast()`: the last piece,
      or `NoSuchElementException` when splitting leaves no piece at all. */
  function RecommendedDatasourceName(table: string): (r: Result<string, Exception>)
    ensures '.' !in table ==> r == Success(table)
    ensures r.Success? ==> '.' !in r.value
    ensures r.Failure? <==> table != [] && OnlyDots(table)
    ensures r.Failure? ==> r.error == NoSuchElementException
  {
    JavaSplitFacts(table);
    var pieces := JavaSplit(table);
    if pieces == [] then Failure(NoSuchElementException) else Success(Last(pieces))
  }

  lemma {:induction false} SplitAllHasNoDots(s: string)
    ensures forall i | 0 <= i < |SplitAll(s)| :: '.' !in SplitAll(s)[i]
  {
    if s != [] {
      SplitAllHasNoDots(DropLast(s));
    }
  }

  /** Splitting loses nothing: joining the pieces with '.' gives the input back. */
  lemma {:induction false} JoinSplitAll(s: string)
    ensures Join(SplitAll(s)) == s
  {
    if s != [] {
      var prefix := DropLast(s);
      var init := SplitAll(prefix);
      JoinSplitAll(prefix);
      if Last(s) == '.' {
        var pieces := init + [[]];
        assert DropLast(pieces) == init;
        assert Join(pieces) == Join(init) + "." + [];
        assert s == prefix + ".";
      } else {
        var pieces := DropLast(init) + [Last(init) + [Last(s)]];
        assert s == prefix + [Last(s)];
        if |init| > 1 {
          assert DropLast(pieces) == DropLast(init);
          assert Join(pieces) == Join(DropLast(init)) + "." + (Last(init) + [Last(s)]);
          assert Join(init) == Join(DropLast(init)) + "." + Last(init);
        }
      }
    }
  }

  lemma {:induction false} LastOfSplitAll(s: string)
    ensures Last(SplitAll(s)) == AfterLastDot(s)
  {
    if s != [] && Last(s) != '.' {
      LastOfSplitAll(DropLast(s));
    }
  }

  /** Dropping trailing empty pieces is the same as splitting without the trailing dots. */
  lemma {:induction false} DropTrailingEmptyOfSplitAll(s: string)
    ensures DropTrailingEmpty(SplitAll(s))
         == if TrimTrailingDots(s) == [] then [] else SplitAll(TrimTrailingDots(s))
  {
    if s == [] {
      assert DropTrailingEmpty([[]]) == DropTrailingEmpty([]);
    } else if Last(s) == '.' {
      var init := SplitAll(DropLast(s));
      assert DropLast(init + [[]]) == init;
      DropTrailingEmptyOfSplitAll(DropLast(s));
    }
  }

  lemma TrimmedEmptyIffOnlyDots(s: string)
    ensures TrimTrailingDots(s) == [] <==> OnlyDots(s)
  {
  }

  lemma JavaSplitFacts(s: string)
    ensures JavaSplit(s) == [] <==> s != [] && OnlyDots(s)
    ensures forall i | 0 <= i < |JavaSplit(s)| :: '.' !in JavaSplit(s)[i]
  {
    if '.' !in s {
      assert s != [] ==> s[0] in s;
    } else {
      SplitAllHasNoDots(s);
      DropTrailingEmptyOfSplitAll(s);
      TrimmedEmptyIffOnlyDots(s);
    }
  }

  /** The recommended name is the part after the last dot once trailing dots
      are ignored; the empty table name gives the empty name; a name made only
      of dots has no last piece. */
  lemma RecommendedNameIsLastSegment(table: string)
    ensures RecommendedDatasourceName(table)
         == if table == [] then Success([])
            else if TrimTrailingDots(table) == [] then Failure(NoSuchElementException)
            else Success(AfterLastDot(TrimTrailingDots(table)))
  {
    var t := TrimTrailingDots(table);
    if '.' in table {
      DropTrailingEmptyOfSplitAll(table);
      if t != [] {
        LastOfSplitAll(t);
      }
    } else if table != [] {
      assert t == table;
      LastOfSplitAll(table);
      SingletonWithoutDot(table);
    }
  }

  /** Without a dot, splitting gives the string as its only piece. */
  lemma {:induction false} SingletonWithoutDot(s: string)
    requires '.' !in s
    ensures SplitAll(s) == [s]
  {
    if s != [] {
      var prefix := DropLast(s);
      assert forall i | 0 <= i < |prefix| :: prefix[i] == s[i];
      assert '.' !in prefix;
      SingletonWithoutDot(prefix);
      assert Last(s) != '.' by {
        assert s[|s| - 1] in s;
      }
      assert prefix + [Last(s)] == s;
    }
  }

  /** When the name does not end in a dot, the recommended name is exactly the
      text after its last dot (which `AfterLastDotIsProper` shows is a proper
      suffix preceded by a dot when there is one): `db.schema.orders` gives `orders`. */
  lemma RecommendedNameAfterLastDot(table: string)
    requires table != [] && Last(table) != '.'
    ensures RecommendedDatasourceName(table) == Success(AfterLastDot(table))
  {
    assert TrimTrailingDots(table) == table;
    RecommendedNameIsLastSegment(table);
  }

  /** In a string with a dot, the text after the last dot is a proper suffix,
      preceded by that dot. */
  lemma {:induction false} AfterLastDotIsProper(s: string)
    requires '.' in s
    ensures var t := AfterLastDot(s);
            |t| < |s| && t == s[|s| - |t|..] && s[|s| - |t| - 1] == '.'
  {
    if Last(s) != '.' {
      var i :| 0 <= i < |s| && s[i] == '.';
      assert DropLast(s)[i] == '.';
      AfterLastDotIsProper(DropLast(s));
    }
  }

  /** Trailing dots are ignored: `a.b.` is named like `a.b`, as long as the
      name has a character other than a dot. */
  lemma TrailingDotIgnored(table: string)
    requires !OnlyDots(table)
    ensures RecommendedDatasourceName(table + ".") == RecommendedDatasourceName(table)
  {
    RecommendedNameIsLastSegment(table);
    RecommendedNameIsLastSegment(table + ".");
    assert DropLast(table + ".") == table;
    TrimmedEmptyIffOnlyDots(table);
  }

  /** `db.schema.orders` is named `orders`. */
  lemma QualifiedNameExample()
    ensures RecommendedDatasourceName("db.schema.orders") == Success("orders")
  {
    var s := "db.schema.orders";
    assert s == "db.schema" + "." + "orders";
    assert Last(s) == 's';
    RecommendedNameAfterLastDot(s);
    assert "orders" == ['o', 'r', 'd', 'e', 'r', 's'];
    AfterLastDotOfSuffix("db.schema", "orders");
  }

  /** `a.b.` is named `b`: the trailing dot is ignored. */
  lemma TrailingDotExample()
    ensures RecommendedDatasourceName("a.b.") == Success("b")
  {
    assert "a.b." == "a.b" + ".";
    assert "a.b" == "a" + "." + "b";
    assert "a.b"[0] != '.';
    TrailingDotIgnored("a.b");
    RecommendedNameIsLastSegment("a.b");
    AfterLastDotOfSuffix("a", "b");
  }

  /** A name made only of dots has no last piece. */
  lemma OnlyDotsExample()
    ensures RecommendedDatasourceName("...") == Failure(NoSuchElementException)
  {
  }

  /** Text after a final dot is what follows the last dot. */
  lemma {:induction false} AfterLastDotOfSuffix(prefix: string, name: string)
    requires '.' !in name && name != []
    ensures AfterLastDot(prefix + "." + name) == name
  {
    var s := prefix + "." + name;
    var t := AfterLastDot(s);
    assert s[|s| - |name| - 1] == '.';
    assert s[|s| - |name|..] == name;
  }

  /* ---------------- readInput ---------------- */

  /** What the helper does on the terminal, in order. */
  datatype ConsoleEvent =
    | Printed(line: string)
    | Prompted(prompt: string, defaultValue: Option<string>)

  datatype Interaction = Interaction(result: Result<string, Exception>, console: seq<ConsoleEvent>)

  /** The interactive prompt: the answer the user gives to a prompt with an optional default. */
  type PromptOracle = (string, Option<string>) -> string

  function MissingOptionMessage(optionName: string): string {
    "Missing required option --" + optionName + " (or omit --no-wizard flag)"
  }

  /** `readInput` of a helper constructed with `noWizard`: the option wins;
      without it, `--no-wizard` is an error naming the option; otherwise the
      header (if any) is printed and the user is asked. */
  function ReadInput(noWizard: Option<bool>, option: Option<string>, optionName: string,
                     header: Option<string>, prompt: string, defaultValue: Option<string>,
                     ask: PromptOracle): (r: Interaction)
    ensures option.Some? ==> r.result == Success(option.value) && r.console == []
    ensures option.None? && noWizard == Some(true) ==>
              r.result == Failure(RuntimeException(MissingOptionMessage(optionName))) && r.console == []
    ensures option.None? && noWizard != Some(true) ==>
              r.result == Success(ask(prompt, defaultValue))
              && r.console == (if header.Some? then [Printed(header.value)] else []) + [Prompted(prompt, defaultValue)]
    ensures r.result.Failure? <==> option.None? && noWizard == Some(true)
  {
    match option
    case Some(value) => Interaction(Success(value), [])
    case None =>
      if noWizard.Some? && noWizard.value then
        Interaction(Failure(RuntimeException(MissingOptionMessage(optionName))), [])
      else
        var shown := match header case Some(h) => [Printed(h)] case None => [];
        Interaction(Success(ask(prompt, defaultValue)), shown + [Prompted(prompt, defaultValue)])
  }
}
