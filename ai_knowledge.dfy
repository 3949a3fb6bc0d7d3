/** The assistant's knowledge search and tool lookups (src/mock/aiKnowledge.ts). The tool and
    knowledge tables are fixtures and are taken as parameters. */
module AiKnowledge {
  import opened Wrappers
  import opened Strs
  import Seqs

  datatype ToolCategory = Query | Analysis | Visualization | Control | Report | Forecast

  /** The fields of an AITool that the lookups use. */
  datatype AITool = AITool(id: string, name: string, category: ToolCategory, description: string)

  /** A knowledge entry; `relevance` is its ranking weight. */
  datatype KnowledgeEntry = KnowledgeEntry(id: string, kind: string, title: string, content: string,
                                           keywords: seq<string>, relevance: real)

  // ---------------------------------------------------------------------------------------------
  // `s.split(/\s+/)`

  /** `s` without its leading run of whitespace. */
  function SkipSpace(s: string): (r: string)
    ensures |r| <= |s| && r == s[|s| - |r|..]
    ensures r == [] || !JsSpace(r[0])
    decreases |s|
  {
    if s != [] && JsSpace(s[0]) then SkipSpace(s[1..]) else s
  }

  predicate NoSpace(t: string) {
    forall j :: 0 <= j < |t| ==> !JsSpace(t[j])
  }

  /** Splitting the rest `s` of the text when the current token so far is `cur`: every maximal
      run of whitespace ends a token, and the end of the text ends the last one. */
  function SplitFrom(s: string, cur: string): (ts: seq<string>)
    requires NoSpace(cur)
    ensures |ts| >= 1
    ensures forall i :: 0 <= i < |ts| ==> NoSpace(ts[i])
    ensures s == [] ==> ts == [cur]
    ensures s != [] && JsSpace(s[0]) ==> ts[0] == cur
    decreases |s|
  {
    if s == [] then [cur]
    else if JsSpace(s[0]) then [cur] + SplitFrom(SkipSpace(s), "")
    else SplitFrom(s[1..], cur + [s[0]])
  }

  /** `text.split(/\s+/)`: always at least one token and no token contains whitespace; the empty
      text gives one empty token, and leading whitespace gives an empty first token. */
  function SplitWs(text: string): (ts: seq<string>)
    ensures |ts| >= 1
    ensures forall i :: 0 <= i < |ts| ==> NoSpace(ts[i])
    ensures text == [] ==> ts == [""]
    ensures text != [] && JsSpace(text[0]) ==> ts[0] == ""
  {
    SplitFrom(text, "")
  }

  /** Splitting text without whitespace gives back the text. */
  lemma {:induction false} SplitWordless(s: string, cur: string)
    requires NoSpace(cur) && NoSpace(s)
    ensures SplitFrom(s, cur) == [cur + s]
    decreases |s|
  {
    if s != [] {
      assert !JsSpace(s[0]);
      assert NoSpace(cur + [s[0]]) by {
        forall j | 0 <= j < |cur + [s[0]]| ensures !JsSpace((cur + [s[0]])[j]) {
          if j < |cur| { assert (cur + [s[0]])[j] == cur[j]; }
        }
      }
      assert NoSpace(s[1..]) by { forall j | 0 <= j < |s[1..]| ensures !JsSpace(s[1..][j]) { assert s[1..][j] == s[j + 1]; } }
      SplitWordless(s[1..], cur + [s[0]]);
      assert cur + [s[0]] + s[1..] == cur + s;
    } else {
      assert cur + s == cur;
    }
  }

  // ---------------------------------------------------------------------------------------------
  // Matching

  /** One lower-cased token is inside the lower-cased title or inside one lower-cased keyword. */
  predicate MatchesToken(e: KnowledgeEntry, kw: string) {
    Contains(Lower(e.title), kw) || exists k :: 0 <= k < |e.keywords| && Contains(Lower(e.keywords[k]), kw)
  }

  /** Some token of the query matches the entry. */
  predicate Matches(e: KnowledgeEntry, tokens: seq<string>) {
    exists i :: 0 <= i < |tokens| && MatchesToken(e, tokens[i])
  }

  /** The tokens of a query: lower-cased, then split on whitespace. */
  function Tokens(query: string): seq<string> {
    SplitWs(Lower(query))
  }

  function MatchesQuery(query: string): KnowledgeEntry -> bool {
    (e: KnowledgeEntry) => Matches(e, Tokens(query))
  }

  // ---------------------------------------------------------------------------------------------
  // `sort((a, b) => b.relevance - a.relevance)`, a stable sort by decreasing relevance

  predicate SortedByRelevance(xs: seq<KnowledgeEntry>) {
    forall i, j :: 0 <= i < j < |xs| ==> xs[i].relevance >= xs[j].relevance
  }

  /** Inserts `x` before the first element of lower relevance, so that equal elements that follow
      `x` in the input stay after it. */
  function Insert(x: KnowledgeEntry, s: seq<KnowledgeEntry>): (r: seq<KnowledgeEntry>)
    requires SortedByRelevance(s)
    ensures SortedByRelevance(r)
    ensures multiset(r) == multiset(s) + multiset{x}
    ensures r[0] == x || (s != [] && r[0] == s[0])
    decreases |s|
  {
    if s == [] || x.relevance >= s[0].relevance then
      [x] + s
    else
      var rest := Insert(x, s[1..]);
      assert multiset(s) == multiset{s[0]} + multiset(s[1..]) by { assert s == [s[0]] + s[1..]; }
      assert s[0].relevance >= rest[0].relevance;
      [s[0]] + rest
  }

  function SortByRelevance(xs: seq<KnowledgeEntry>): (r: seq<KnowledgeEntry>)
    ensures SortedByRelevance(r)
    ensures multiset(r) == multiset(xs)
    decreases |xs|
  {
    if xs == [] then []
    else
      assert xs == [xs[0]] + xs[1..];
      Insert(xs[0], SortByRelevance(xs[1..]))
  }

  /** searchKnowledge: the entries some query token matches, most relevant first. Every entry
      returned matches, every matching entry is returned as often as it occurs, and nothing else. */
  function SearchKnowledge(entries: seq<KnowledgeEntry>, query: string): (r: seq<KnowledgeEntry>)
    ensures forall e :: e in r ==> Matches(e, Tokens(query))
    ensures forall e :: e in entries && Matches(e, Tokens(query)) ==> e in r
    ensures forall e :: multiset(r)[e] == if Matches(e, Tokens(query)) then multiset(entries)[e] else 0
    ensures SortedByRelevance(r)
  {
    var found := Seqs.Filter(entries, MatchesQuery(query));
    var r := SortByRelevance(found);
    assert forall e :: e in r <==> e in found by {
      forall e ensures e in r <==> e in found {
        assert e in r <==> e in multiset(r);
      }
    }
    r
  }

  /** Text that ends with whitespace splits into a last token that is empty. */
  lemma {:induction false} SplitTrailingSpace(s: string, cur: string)
    requires NoSpace(cur) && s != [] && JsSpace(s[|s| - 1])
    ensures var ts := SplitFrom(s, cur); ts[|ts| - 1] == ""
    decreases |s|
  {
    if JsSpace(s[0]) {
      var rest := SkipSpace(s);
      if rest != [] {
        assert rest[|rest| - 1] == s[|s| - 1];
        SplitTrailingSpace(rest, "");
      }
    } else {
      assert NoSpace(cur + [s[0]]) by {
        forall j | 0 <= j < |cur + [s[0]]| ensures !JsSpace((cur + [s[0]])[j]) {
          if j < |cur| { assert (cur + [s[0]])[j] == cur[j]; }
        }
      }
      assert s[1..][|s| - 2] == s[|s| - 1];
      SplitTrailingSpace(s[1..], cur + [s[0]]);
    }
  }

  /** An empty query, or one that starts or ends with whitespace, has an empty token, which
      every entry matches: the search then returns every entry. */
  lemma EmptyTokenMatchesAll(entries: seq<KnowledgeEntry>, query: string)
    requires query == [] || JsSpace(query[0]) || JsSpace(query[|query| - 1])
    ensures multiset(SearchKnowledge(entries, query)) == multiset(entries)
  {
    var ts := Tokens(query);
    var k := 0;
    if query != [] && !JsSpace(query[0]) {
      assert JsSpace(Lower(query)[|query| - 1]);
      SplitTrailingSpace(Lower(query), "");
      k := |ts| - 1;
    } else {
      assert Lower(query) == [] || JsSpace(Lower(query)[0]);
    }
    assert ts[k] == "";
    var r := SearchKnowledge(entries, query);
    forall e ensures multiset(r)[e] == multiset(entries)[e] {
      EmptyIsEverywhere(Lower(e.title));
      assert MatchesToken(e, ts[k]);
      assert Matches(e, Tokens(query));
    }
    assert multiset(r) == multiset(entries);
  }

  /** A one-word query matches exactly the entries whose title or a keyword contains it. */
  lemma OneWordQuery(e: KnowledgeEntry, word: string)
    requires word != [] && NoSpace(word)
    ensures Matches(e, Tokens(word)) <==> MatchesToken(e, Lower(word))
  {
    assert NoSpace(Lower(word)) by {
      forall j | 0 <= j < |word| ensures !JsSpace(Lower(word)[j]) {
        assert Lower(word)[j] == LowerChar(word[j]);
      }
    }
    var w := Lower(word);
    SplitWordless(w, "");
    assert "" + w == w;
    assert Tokens(word) == [w];
    if MatchesToken(e, w) {
      assert Tokens(word)[0] == w;
    }
  }

  // ---------------------------------------------------------------------------------------------
  // Tools

  /** getToolById: the first tool with the id, or None. */
  function GetToolById(tools: seq<AITool>, id: string): (r: Option<AITool>)
    ensures r.None? <==> forall i :: 0 <= i < |tools| ==> tools[i].id != id
    ensures r.Some? ==> exists i :: 0 <= i < |tools| && tools[i] == r.value && r.value.id == id
                                    && forall j :: 0 <= j < i ==> tools[j].id != id
  {
    Seqs.Find(tools, (t: AITool) => t.id == id)
  }

  /** getToolsByCategory: exactly the tools of the category, in order. */
  function GetToolsByCategory(tools: seq<AITool>, category: ToolCategory): (r: seq<AITool>)
    ensures forall t :: t in r <==> t in tools && t.category == category
    ensures forall t :: multiset(r)[t] == if t.category == category then multiset(tools)[t] else 0
    ensures Seqs.IsSubsequence(r, tools)
  {
    Seqs.Filter(tools, (t: AITool) => t.category == category)
  }
}
