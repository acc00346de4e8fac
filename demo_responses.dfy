/** The canned replies of the research route's demo mode and the ordered
    keyword table that picks one of them (`getDemoResponse`). */
module DemoResponses {
  import opened Text
  import opened ResearchParser

  /** The three entries of the demo table. */
  datatype DemoEntry = CortensorEntry | AiEntry | DefaultEntry

  /** One row of the keyword table: the entry it selects and the keywords that select it. */
  datatype Rule = Rule(entry: DemoEntry, keywords: seq<string>)

  /** The table in the order the route tries it; a query no row matches gets the default entry. */
  function Rules(): seq<Rule> {
    [ Rule(CortensorEntry, ["cortensor", "decentralized inference"]),
      Rule(AiEntry, ["ai", "artificial intelligence"]) ]
  }

  /** Some keyword of `keywords` occurs in `text`. */
  predicate AnyKeyword(text: string, keywords: seq<string>) {
    exists k :: 0 <= k < |keywords| && Contains(text, keywords[k])
  }

  /** The entry of the first row one of whose keywords occurs in `text`. */
  function FirstMatch(rules: seq<Rule>, text: string): (e: DemoEntry)
    ensures e == DefaultEntry <==> forall i :: 0 <= i < |rules| && rules[i].entry != DefaultEntry ==> !AnyKeyword(text, rules[i].keywords)
  {
    if rules == [] then DefaultEntry
    else if AnyKeyword(text, rules[0].keywords) && rules[0].entry != DefaultEntry then rules[0].entry
    else if AnyKeyword(text, rules[0].keywords) then
      FirstMatch(rules[1..], text)
    else
      assert forall i :: 1 <= i < |rules| ==> rules[i] == rules[1..][i - 1];
      FirstMatch(rules[1..], text)
  }

  /** `getDemoResponse`'s choice: the query is lower-cased, then "cortensor" or
      "decentralized inference" selects the Cortensor entry, otherwise "ai" or
      "artificial intelligence" selects the AI entry, otherwise the default. */
  function DemoEntryFor(query: string): (e: DemoEntry)
    ensures var q := Lower(query);
      && (e == CortensorEntry <==> Contains(q, "cortensor") || Contains(q, "decentralized inference"))
      && (e == AiEntry <==>
            !(Contains(q, "cortensor") || Contains(q, "decentralized inference"))
            && (Contains(q, "ai") || Contains(q, "artificial intelligence")))
  {
    var q := Lower(query);
    if Contains(q, "cortensor") || Contains(q, "decentralized inference") then CortensorEntry
    else if Contains(q, "ai") || Contains(q, "artificial intelligence") then AiEntry
    else DefaultEntry
  }

  /** The choice is the first-row-wins reading of the keyword table. */
  lemma DemoEntryIsFirstMatch(query: string)
    ensures DemoEntryFor(query) == FirstMatch(Rules(), Lower(query))
  {
    var q := Lower(query);
    var rs := Rules();
    assert AnyKeyword(q, rs[0].keywords) <==> Contains(q, "cortensor") || Contains(q, "decentralized inference") by {
      assert rs[0].keywords[0] == "cortensor" && rs[0].keywords[1] == "decentralized inference";
    }
    assert AnyKeyword(q, rs[1].keywords) <==> Contains(q, "ai") || Contains(q, "artificial intelligence") by {
      assert rs[1].keywords[0] == "ai" && rs[1].keywords[1] == "artificial intelligence";
    }
    assert rs[1..][1..] == [];
  }

  /** The match ignores ASCII case: a query and its lower-cased form select the same entry. */
  lemma DemoEntryIgnoresCase(query: string)
    ensures DemoEntryFor(Lower(query)) == DemoEntryFor(query)
  {
    LowerIdempotent(query);
  }

  /** The canned reply of each entry. */
  function DemoReply(e: DemoEntry): Research {
    match e
    case DefaultEntry => Research(
      "Based on analysis of the query, here are the key research findings compiled from decentralized inference.",
      [ "Decentralized AI inference distributes computation across multiple nodes for reliability and trust",
        "Proof of Inference (PoI) validates that multiple miners produced consistent results",
        "Proof of Useful Work (PoUW) scores the quality and usefulness of AI outputs",
        "Multi-layer blockchain architecture (L1-L3) enables scalable AI orchestration",
        "Token-based incentives align miner behavior with network quality goals" ])
    case CortensorEntry => Research(
      "Cortensor is a decentralized AI inference protocol combining distributed computing with blockchain-based validation for trustworthy AI.",
      [ "Cortensor enables decentralized AI inference across a global network of nodes",
        "Router nodes handle task allocation and intelligent workload distribution",
        "Miner nodes execute inference tasks and earn rewards for quality work",
        "PoI/PoUW mechanisms provide cryptographic proofs of computation validity",
        "L3 AppChain handles privacy-preserving AI computations",
        "ERC-8004 integration enables agent identity and discoverability" ])
    case AiEntry => Research(
      "The latest trends in AI focus on decentralization, verifiable computation, and agentic applications that can act autonomously.",
      [ "Agentic AI systems can perform tasks autonomously with minimal human intervention",
        "Decentralized inference reduces single points of failure and increases trust",
        "Verifiable AI uses cryptographic proofs to validate model outputs",
        "Multi-model consensus improves accuracy and reduces hallucinations",
        "Web3 integration enables tokenized incentives for AI service providers" ])
  }

  /** `getDemoResponse(query)`. */
  function DemoResponse(query: string): Research {
    DemoReply(DemoEntryFor(query))
  }

  /** The keyword test is a plain substring test: "ai" inside another word
      is enough to select the AI entry. */
  lemma SubstringAiExample(q: string)
    requires q == "Retail"
    ensures DemoEntryFor(q) == AiEntry
  {
    var l := Lower(q);
    LowerOfNoUpper(q[1..]);
    assert l == "retail";
    assert OccursAt(l, "ai", 3);
    IndexOfFirst(l, "ai");
  }
}
