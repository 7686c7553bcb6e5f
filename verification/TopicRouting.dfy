/**
 The activity_signals topology of src/app/scripts/init_rabbitmq.py, and which queue a
 published signal reaches.  Bindings match as in section 3.1.3.3 of the AMQP 0-9-1
 specification: words delimited by dots, `*` for one word, `#` for zero or more.
 */
module TopicRouting {
  datatype PatternWord = Literal(word: string) | Star | Hash

  /** A dot starts a word, any other character belongs to the first one. */
  function Prepend(c: char, words: seq<string>): (r: seq<string>)
    requires words != []
    ensures r != []
  {
    if c == '.' then [[]] + words else [[c] + words[0]] + words[1..]
  }

  function Words(key: string): (words: seq<string>)
    ensures words != []
    decreases |key|
  {
    if key == [] then [[]] else Prepend(key[0], Words(key[1..]))
  }

  function PatternOf(words: seq<string>): seq<PatternWord> {
    if words == [] then []
    else [if words[0] == "*" then Star else if words[0] == "#" then Hash else Literal(words[0])] + PatternOf(words[1..])
  }

  predicate Matches(pattern: seq<PatternWord>, words: seq<string>)
    decreases |pattern| + |words|
  {
    if pattern == [] then words == []
    else match pattern[0]
      case Literal(w) => words != [] && words[0] == w && Matches(pattern[1..], words[1..])
      case Star => words != [] && Matches(pattern[1..], words[1..])
      case Hash => Matches(pattern[1..], words) || (words != [] && Matches(pattern, words[1..]))
  }

  datatype Binding = Binding(queue: string, routingKey: string)

  const SOURCE_QUEUES: seq<Binding> := [
    Binding("github_queue", "github.#"),
    Binding("jira_queue", "jira.#"),
    Binding("confluence_queue", "confluence.#")
  ]

  const DLQ_NAME := "activity_signals_dlq"

  predicate Accepts(b: Binding, key: string) { Matches(PatternOf(Words(b.routingKey)), Words(key)) }

  /** The queues an exchange with these bindings delivers a key to. */
  function Routes(bindings: seq<Binding>, key: string): set<string> {
    set i | 0 <= i < |bindings| && Accepts(bindings[i], key) :: bindings[i].queue
  }

  /** The declared part of the broker; a second declaration of the same thing changes nothing. */
  class Broker {
    var queues: set<string>
    var bindings: seq<Binding>

    constructor ()
      ensures queues == {} && bindings == []
    {
      queues, bindings := {}, [];
    }

    /** The source queues part of `init_rabbitmq`, safe to repeat. */
    method InitTopology()
      modifies this
      ensures queues == old(queues) + {"github_queue", "jira_queue", "confluence_queue"}
      ensures forall b :: b in bindings <==> b in old(bindings) || b in SOURCE_QUEUES
      ensures forall key :: Routes(bindings, key) == Routes(old(bindings), key) + Routes(SOURCE_QUEUES, key)
      ensures (forall b :: b in SOURCE_QUEUES ==> b in old(bindings)) ==> bindings == old(bindings)
    {
      for i := 0 to |SOURCE_QUEUES|
        invariant queues == old(queues) + set j | 0 <= j < i :: SOURCE_QUEUES[j].queue
        invariant forall b :: b in bindings <==> b in old(bindings) || b in SOURCE_QUEUES[..i]
        invariant (forall b :: b in SOURCE_QUEUES ==> b in old(bindings)) ==> bindings == old(bindings)
      {
        var b := SOURCE_QUEUES[i];
        queues := queues + {b.queue};
        if b !in bindings {
          bindings := bindings + [b];
        }
        assert SOURCE_QUEUES[..i + 1] == SOURCE_QUEUES[..i] + [b];
      }
      assert (set j | 0 <= j < 3 :: SOURCE_QUEUES[j].queue) == {"github_queue", "jira_queue", "confluence_queue"} by {
        assert SOURCE_QUEUES[0].queue == "github_queue" && SOURCE_QUEUES[1].queue == "jira_queue" && SOURCE_QUEUES[2].queue == "confluence_queue";
      }
      assert SOURCE_QUEUES[..|SOURCE_QUEUES|] == SOURCE_QUEUES;
      forall key ensures Routes(bindings, key) == Routes(old(bindings), key) + Routes(SOURCE_QUEUES, key) {
        RoutesByMembership(bindings, key);
        RoutesByMembership(old(bindings), key);
        RoutesByMembership(SOURCE_QUEUES, key);
      }
    }
  }

  lemma RoutesByMembership(bindings: seq<Binding>, key: string)
    ensures forall q :: q in Routes(bindings, key) <==> exists b :: b in bindings && b.queue == q && Accepts(b, key)
  {
    forall q ensures q in Routes(bindings, key) <==> exists b :: b in bindings && b.queue == q && Accepts(b, key) {
      if b :| b in bindings && b.queue == q && Accepts(b, key) {
        var i :| 0 <= i < |bindings| && bindings[i] == b;
      }
    }
  }

  lemma {:induction false} HashMatchesAll(words: seq<string>)
    ensures Matches([Hash], words)
  {
    if words != [] {
      HashMatchesAll(words[1..]);
    }
  }

  /** Without `#`, a pattern matches word by word: a literal its own word, a star any one word. */
  lemma {:induction false} PlainPatterns(pattern: seq<PatternWord>, words: seq<string>)
    requires Hash !in pattern
    ensures Matches(pattern, words) <==>
      |pattern| == |words| && forall i :: 0 <= i < |words| ==> pattern[i].Star? || pattern[i] == Literal(words[i])
    decreases |pattern|
  {
    if pattern != [] && words != [] {
      assert pattern[0] in pattern;
      PlainPatterns(pattern[1..], words[1..]);
      assert forall i :: 0 < i < |words| ==> words[i] == words[1..][i - 1];
      assert forall i :: 0 < i < |pattern| ==> pattern[i] == pattern[1..][i - 1];
    }
  }

  /** A pattern after `#` matches if it matches what is left after some number of words. */
  lemma {:induction false} HashSkipsWords(pattern: seq<PatternWord>, words: seq<string>)
    ensures Matches([Hash] + pattern, words) <==> exists n: nat :: n <= |words| && Matches(pattern, words[n..])
    decreases |words|
  {
    var hashed := [Hash] + pattern;
    assert hashed[1..] == pattern && words[0..] == words;
    if words != [] {
      HashSkipsWords(pattern, words[1..]);
      if n: nat :| n <= |words[1..]| && Matches(pattern, words[1..][n..]) {
        assert words[1..][n..] == words[n + 1..];
      }
      if n: nat :| 0 < n <= |words| && Matches(pattern, words[n..]) {
        assert words[1..][n - 1..] == words[n..];
      }
    }
  }

  /** `<word>.#` accepts exactly the keys whose first word is that word. */
  lemma FirstWordDecides(w: string, words: seq<string>)
    requires words != []
    ensures Matches([Literal(w), Hash], words) <==> words[0] == w
  {
    assert [Literal(w), Hash][1..] == [Hash];
    HashMatchesAll(words[1..]);
  }

  lemma PrependConcat(c: char, a: seq<string>, b: seq<string>)
    requires a != []
    ensures Prepend(c, a + b) == Prepend(c, a) + b
  {
    assert (a + b)[1..] == a[1..] + b;
  }

  lemma {:induction false} WordsOfDotted(s: string, t: string)
    ensures Words(s + "." + t) == Words(s) + Words(t)
    decreases |s|
  {
    var d := s + "." + t;
    if s == [] {
      assert d[0] == '.' && d[1..] == t;
    } else {
      hide Prepend;
      assert d[0] == s[0] && d[1..] == s[1..] + "." + t;
      WordsOfDotted(s[1..], t);
      PrependConcat(s[0], Words(s[1..]), Words(t));
    }
  }

  lemma {:induction false} WordsOfPlain(s: string)
    requires '.' !in s
    ensures Words(s) == [s]
    decreases |s|
  {
    if s != [] {
      WordsOfPlain(s[1..]);
      assert s == [s[0]] + s[1..];
    }
  }

  lemma PatternOfSource(source: string)
    requires '.' !in source && source != "*" && source != "#"
    ensures PatternOf(Words(source + ".#")) == [Literal(source), Hash]
  {
    WordsOfDotted(source, "#");
    WordsOfPlain(source);
    WordsOfPlain("#");
    assert source + "." + "#" == source + ".#";
    assert Words(source + ".#") == [source, "#"];
    assert [source, "#"][1..] == ["#"] && ["#"][1..] == [];
    assert PatternOf(["#"]) == [Hash];
  }

  /** Where the signals of a source go, if anywhere. */
  function QueueOf(firstWord: string): set<string> {
    if firstWord == "github" then {"github_queue"}
    else if firstWord == "jira" then {"jira_queue"}
    else if firstWord == "confluence" then {"confluence_queue"}
    else {}
  }

  lemma BindingDecides(b: Binding, source: string, key: string)
    requires b.routingKey == source + ".#" && '.' !in source && source != "*" && source != "#"
    ensures Accepts(b, key) <==> Words(key)[0] == source
  {
    hide Matches, Words, PatternOf;
    PatternOfSource(source);
    FirstWordDecides(source, Words(key));
  }

  lemma EachBindingDecides(key: string)
    ensures Accepts(SOURCE_QUEUES[0], key) <==> Words(key)[0] == "github"
    ensures Accepts(SOURCE_QUEUES[1], key) <==> Words(key)[0] == "jira"
    ensures Accepts(SOURCE_QUEUES[2], key) <==> Words(key)[0] == "confluence"
  {
    hide Accepts, Words;
    assert "github" + ".#" == "github.#";
    BindingDecides(SOURCE_QUEUES[0], "github", key);
    assert "jira" + ".#" == "jira.#";
    BindingDecides(SOURCE_QUEUES[1], "jira", key);
    assert "confluence" + ".#" == "confluence.#";
    BindingDecides(SOURCE_QUEUES[2], "confluence", key);
  }

  /** With three bindings of which at most one accepts, a key is routed by that one. */
  lemma RoutesOfThree(bindings: seq<Binding>, key: string)
    requires |bindings| == 3
    ensures Routes(bindings, key) ==
      (if Accepts(bindings[0], key) then {bindings[0].queue} else {})
      + (if Accepts(bindings[1], key) then {bindings[1].queue} else {})
      + (if Accepts(bindings[2], key) then {bindings[2].queue} else {})
  {
    hide Accepts;
  }

  /**
   The routing law: the first word of a key decides, so a key reaches exactly one
   source queue when that word is one of the three sources, and none otherwise.
   */
  lemma RoutedByFirstWord(key: string)
    ensures Routes(SOURCE_QUEUES, key) == QueueOf(Words(key)[0])
    ensures |Routes(SOURCE_QUEUES, key)| <= 1
  {
    hide Accepts, Routes, Words;
    RoutesOfThree(SOURCE_QUEUES, key);
    EachBindingDecides(key);
  }

  function PublishKey(source: string, entityType: string): string { source + "." + entityType }

  /** A published signal reaches the queue of its source, whatever its entity type. */
  lemma PublishReachesSource(source: string, entityType: string)
    ensures Routes(SOURCE_QUEUES, PublishKey(source, entityType)) == QueueOf(Words(source)[0])
    ensures '.' !in source ==> Words(source)[0] == source
    ensures Words(PublishKey(source, entityType)) == Words(source) + Words(entityType)
  {
    WordsOfDotted(source, entityType);
    RoutedByFirstWord(PublishKey(source, entityType));
    if '.' !in source {
      WordsOfPlain(source);
    }
  }

  /** The key a dead letter itself carries reaches no source queue. */
  lemma DeadLetterKeyIsUnroutable()
    ensures DLQ_NAME == "activity_signals_dlq" && Routes(SOURCE_QUEUES, "activity_signals_dlq") == {}
  {
    WordsOfPlain(DLQ_NAME);
    RoutedByFirstWord(DLQ_NAME);
  }
}
