/** `main` (app.py:52-69) up to the table of results: the pasted text is
    checked, turned into a list of distinct identifiers, and, once the button
    is pressed, each identifier is fetched in turn and its record appended.
    Python iterates a `set` in an order the language leaves open, so that
    order is a parameter, constrained to list each identifier exactly once.
    The page request is a parameter too: `fetch(t)` is what the site answers
    for identifier `t`. */
module Scraper {
  import opened PyJson
  import opened PyDict
  import opened Product
  import opened Intake

  /** `xs` lists every element of `s` exactly once: `list(s)` in some order. */
  ghost predicate IsEnumeration(xs: seq<string>, s: set<string>) {
    (forall i, j :: 0 <= i < j < |xs| ==> xs[i] != xs[j]) &&
    (forall x :: x in s <==> x in xs)
  }

  /** `list(s)` has `len(s)` elements. */
  lemma {:induction false} EnumerationLength(xs: seq<string>, s: set<string>)
    requires IsEnumeration(xs, s)
    decreases |xs|
    ensures |xs| == |s|
  {
    if xs != [] {
      EnumerationRest(xs, s);
      EnumerationLength(xs[1..], s - {xs[0]});
    }
  }

  /** Dropping the first element of an enumeration enumerates the rest. */
  lemma EnumerationRest(xs: seq<string>, s: set<string>)
    requires IsEnumeration(xs, s) && xs != []
    ensures xs[0] in s && IsEnumeration(xs[1..], s - {xs[0]})
  {
    forall x ensures x in s - {xs[0]} <==> x in xs[1..] {
      if x in xs[1..] {
        var j :| 0 <= j < |xs[1..]| && xs[1..][j] == x;
        assert xs[j + 1] == x;
      }
      if x in xs && x != xs[0] {
        var j :| 0 <= j < |xs| && xs[j] == x;
        assert xs[1..][j - 1] == x;
      }
    }
  }

  /** An enumeration of trimmed, non-empty strings lists only such strings. */
  lemma TrimmedEnumeration(xs: seq<string>, s: set<string>)
    requires IsEnumeration(xs, s)
    requires forall t :: t in s ==> t != [] && Strip(t) == t
    ensures forall i :: 0 <= i < |xs| ==> xs[i] != [] && Strip(xs[i]) == xs[i]
  {
    assert forall i :: 0 <= i < |xs| ==> xs[i] in s;
  }

  /** The identifier list of app.py:60 for a non-blank input: non-empty, as
      long as the identifier set, and made of trimmed, non-empty strings. */
  lemma IdentifierList(input: string, tcins: seq<string>)
    requires Strip(input) != [] && IsEnumeration(tcins, Tokens(input))
    ensures tcins != [] && |tcins| == |Tokens(input)|
    ensures forall i :: 0 <= i < |tcins| ==> tcins[i] != [] && Strip(tcins[i]) == tcins[i]
  {
    BlankIffNoTokens(input);
    TokensAreTrimmedLines(input);
    EnumerationLength(tcins, Tokens(input));
    TrimmedEnumeration(tcins, Tokens(input));
  }

  /** `[f(x) for x in xs]` */
  function Each<R>(xs: seq<string>, f: string -> R): (ys: seq<R>)
    ensures |ys| == |xs|
    ensures forall i :: 0 <= i < |xs| ==> ys[i] == f(xs[i])
  {
    if xs == [] then [] else [f(xs[0])] + Each(xs[1..], f)
  }

  /** The record `fetch_product_data(t)` returns when the site answers
      `fetch(t)`. */
  function Scrape(fetch: string -> Response): string -> Record {
    t => ProductRecord(t, fetch(t))
  }

  /** The list `results` the loop of app.py:62-66 builds: one record per
      identifier, in the order of the identifiers. */
  function Records(tcins: seq<string>, fetch: string -> Response): (results: seq<Record>)
    ensures |results| == |tcins|
    ensures forall i :: 0 <= i < |tcins| ==> results[i] == ProductRecord(tcins[i], fetch(tcins[i]))
  {
    Each(tcins, Scrape(fetch))
  }

  /** What one run of the page shows: the prompt to enter identifiers, the
      identifiers waiting for the button, or the records fetched for them. */
  datatype Run = Prompted | Ready(tcins: seq<string>) | Scraped(tcins: seq<string>, results: seq<Record>)

  /** app.py:55-66. `order` is the iteration order of the identifier set,
      `clicked` whether the button was pressed. A blank input only prompts;
      otherwise every identifier is trimmed and non-empty, and pressing the
      button fetches each one once, in order. */
  method RunScraper(input: string, order: seq<string>, clicked: bool, fetch: string -> Response)
    returns (run: Run)
    requires Strip(input) != [] ==> IsEnumeration(order, Tokens(input))
    ensures run.Prompted? <==> Strip(input) == []
    ensures !run.Prompted? ==>
      run.tcins == order && order != [] &&
      (forall i :: 0 <= i < |order| ==> order[i] != [] && Strip(order[i]) == order[i])
    ensures !run.Prompted? ==> (run.Scraped? <==> clicked)
    ensures run.Scraped? ==>
      run.results == Records(order, fetch) && |run.results| == |Tokens(input)| &&
      (forall i :: 0 <= i < |order| ==>
         run.results[i] == ProductRecord(order[i], fetch(order[i])) &&
         run.results[i].entries[Tcin] == JString(order[i]))
  {
    if Strip(input) == [] {
      return Prompted;
    }
    var tcins := order;
    IdentifierList(input, tcins);
    if !clicked {
      return Ready(tcins);
    }
    var results := ScrapeAll(tcins, fetch);
    return Scraped(tcins, results);
  }

  /** app.py:62-66: fetch every identifier in turn and append its record. */
  method ScrapeAll(tcins: seq<string>, fetch: string -> Response) returns (results: seq<Record>)
    ensures results == Records(tcins, fetch)
  {
    results := [];
    for idx := 0 to |tcins|
      invariant |results| == idx
      invariant forall i :: 0 <= i < idx ==> results[i] == ProductRecord(tcins[i], fetch(tcins[i]))
    {
      var data := FetchProductData(tcins[idx], fetch(tcins[idx]));
      results := results + [data];
    }
    assert results == Records(tcins, fetch);
  }

  /** Mapping over consecutive lists gives consecutive lists. */
  lemma {:induction false} EachAppend<R>(a: seq<string>, b: seq<string>, f: string -> R)
    decreases |a|
    ensures Each(a + b, f) == Each(a, f) + Each(b, f)
  {
    if a == [] {
      assert a + b == b;
    } else {
      assert (a + b)[0] == a[0];
      assert (a + b)[1..] == a[1..] + b;
      EachAppend(a[1..], b, f);
    }
  }

  /** Taking an element out of the middle of a list takes its image out of
      the multiset of images. */
  lemma EachSplice<R>(before: seq<string>, t: string, after: seq<string>, f: string -> R)
    ensures multiset(Each(before + ([t] + after), f)) ==
            multiset{f(t)} + multiset(Each(before + after, f))
  {
    assert Each([t], f) == [f(t)];
    EachAppend(before, [t] + after, f);
    EachAppend([t], after, f);
    EachAppend(before, after, f);
  }

  /** A list without repetitions holds each of its elements once. */
  lemma {:induction false} DistinctOnce(xs: seq<string>)
    requires forall i, j :: 0 <= i < j < |xs| ==> xs[i] != xs[j]
    decreases |xs|
    ensures forall x :: multiset(xs)[x] == if x in xs then 1 else 0
  {
    if xs != [] {
      assert forall i, j :: 0 <= i < j < |xs[1..]| ==> xs[1..][i] == xs[i + 1] && xs[1..][j] == xs[j + 1];
      DistinctOnce(xs[1..]);
      assert xs == [xs[0]] + xs[1..];
      assert xs[0] !in xs[1..];
    }
  }

  /** Two enumerations of one set are permutations of each other. */
  lemma EnumerationsPermute(xs: seq<string>, ys: seq<string>, s: set<string>)
    requires IsEnumeration(xs, s) && IsEnumeration(ys, s)
    ensures multiset(xs) == multiset(ys)
  {
    DistinctOnce(xs);
    DistinctOnce(ys);
    assert forall x :: multiset(xs)[x] == multiset(ys)[x];
  }

  /** Mapping permutations gives permutations. */
  lemma {:induction false} EachPermutes<R>(xs: seq<string>, ys: seq<string>, f: string -> R)
    requires multiset(xs) == multiset(ys)
    decreases |xs|
    ensures multiset(Each(xs, f)) == multiset(Each(ys, f))
  {
    if xs == [] {
      assert ys == [];
    } else {
      var t := xs[0];
      assert t in multiset(ys);
      var k :| 0 <= k < |ys| && ys[k] == t;
      var before, after := ys[..k], ys[k + 1..];
      assert ys == before + ([t] + after);
      assert xs == [t] + xs[1..];
      assert multiset(ys) == multiset(before) + multiset{t} + multiset(after);
      assert multiset(xs) == multiset{t} + multiset(xs[1..]);
      assert multiset(before + after) == multiset(before) + multiset(after);
      assert multiset(xs[1..]) == multiset(xs) - multiset{t};
      assert multiset(before + after) == multiset(ys) - multiset{t};
      EachPermutes(xs[1..], before + after, f);
      EachSplice(before, t, after, f);
      assert Each(xs, f) == [f(t)] + Each(xs[1..], f);
    }
  }

  /** The iteration order of the set changes only the row order of the
      table: any two orders give the same records. This rests on `fetch`
      being one fixed function of the identifier: the site is taken to answer
      the same for an identifier whenever in the run it is asked. */
  lemma RecordsIndependentOfOrder(xs: seq<string>, ys: seq<string>, s: set<string>,
                                  fetch: string -> Response)
    requires IsEnumeration(xs, s) && IsEnumeration(ys, s)
    ensures multiset(Records(xs, fetch)) == multiset(Records(ys, fetch))
  {
    EnumerationsPermute(xs, ys, s);
    EachPermutes(xs, ys, Scrape(fetch));
  }

  /** No two rows of the table share an identifier. */
  lemma DistinctTcinColumn(tcins: seq<string>, fetch: string -> Response)
    requires forall i, j :: 0 <= i < j < |tcins| ==> tcins[i] != tcins[j]
    ensures forall i, j :: 0 <= i < j < |tcins| ==>
      Records(tcins, fetch)[i].entries[Tcin] != Records(tcins, fetch)[j].entries[Tcin]
  {
  }
}
