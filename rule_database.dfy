/**
 * Loading the die-type heuristic database (RamSleuth_DB.py, load_database): the
 * parsed JSON document must be a list of objects, each with an integer priority
 * and a non-blank string die_type; the accepted entries are ordered by descending
 * priority, keeping file order among equal priorities.
 */
module RuleDatabase {
  import opened Outcome
  import opened Text
  import opened Values

  /** A validated database entry: its priority, its die type, and the entry as loaded. */
  datatype Rule = Rule(priority: int, dieType: string, fields: Record)

  /** The ValueError the loader raises, with the index of the offending entry. */
  datatype LoadError =
    | NotAList
    | EntryNotObject(index: nat)
    | MissingPriority(index: nat)
    | PriorityNotInt(index: nat)
    | MissingDieType(index: nat)
    | BlankDieType(index: nat)

  /** isinstance(v, int) with its value; a JSON true or false is a Python bool, which is an int. */
  function IntValue(v: Json): Option<int>
  {
    match v
    case Int(i) => Some(i)
    case Bool(b) => Some(if b then 1 else 0)
    case _ => None
  }

  /** The entry passes every check the loader makes. */
  predicate ValidEntry(v: Json)
    ensures ValidEntry(v) ==> v.Object? && "priority" in v.fields && (v.fields["priority"].Int? || v.fields["priority"].Bool?)
    ensures v.Object? && "priority" in v.fields && v.fields["priority"].Real? ==> !ValidEntry(v)
    ensures v.Object? && "die_type" in v.fields && v.fields["die_type"].Str? && AllSpace(v.fields["die_type"].s) ==> !ValidEntry(v)
  {
    AllSpaceStripped();
    v.Object?
    && "priority" in v.fields && IntValue(v.fields["priority"]).Some?
    && "die_type" in v.fields && v.fields["die_type"].Str? && Strip(v.fields["die_type"].s) != ""
  }

  /** The rule an entry stands for. */
  function RuleOf(v: Json): (r: Rule)
    requires ValidEntry(v)
    ensures r.fields == v.fields && Get(r.fields, "die_type") == Str(r.dieType) && Strip(r.dieType) != ""
    ensures IntValue(r.fields["priority"]) == Some(r.priority)
  {
    Rule(IntValue(v.fields["priority"]).value, v.fields["die_type"].s, v.fields)
  }

  /** The error the loader raises for entry `index`, checking its conditions in the source's order. */
  function EntryError(v: Json, index: nat): (e: LoadError)
    requires !ValidEntry(v)
    ensures !e.NotAList? && e.index == index
  {
    if !v.Object? then EntryNotObject(index)
    else if "priority" !in v.fields then MissingPriority(index)
    else if IntValue(v.fields["priority"]).None? then PriorityNotInt(index)
    else if "die_type" !in v.fields then MissingDieType(index)
    else BlankDieType(index)
  }

  // ---------------------------------------------------------------- the stable sort

  predicate SortedByPriority(s: seq<Rule>)
  {
    forall i, j :: 0 <= i < j < |s| ==> s[i].priority >= s[j].priority
  }

  /** The rules of s that have priority p, in the order s has them. */
  function AtPriority(s: seq<Rule>, p: int): seq<Rule>
  {
    if s == [] then [] else (if s[0].priority == p then [s[0]] else []) + AtPriority(s[1..], p)
  }

  /** Inserts x after every rule whose priority is at least x's. */
  function Insert(x: Rule, s: seq<Rule>): seq<Rule>
  {
    if s == [] then [x]
    else if s[0].priority >= x.priority then [s[0]] + Insert(x, s[1..])
    else [x] + s
  }

  /** Python's list.sort(key=priority, reverse=True), a stable sort, as insertion sort. */
  function SortByPriority(s: seq<Rule>): (r: seq<Rule>)
    ensures SortedByPriority(r)
  {
    if s == [] then []
    else
      var init, last := SortByPriority(s[..|s| - 1]), s[|s| - 1];
      InsertSorted(last, init);
      Insert(last, init)
  }

  lemma {:induction false} AtPriorityAppend(a: seq<Rule>, b: seq<Rule>, p: int)
    ensures AtPriority(a + b, p) == AtPriority(a, p) + AtPriority(b, p)
  {
    if a == [] {
      assert a + b == b;
    } else {
      assert (a + b)[1..] == a[1..] + b;
      AtPriorityAppend(a[1..], b, p);
    }
  }

  /** Every element of Insert(x, s) is x or an element of s. */
  lemma {:induction false} InsertElements(x: Rule, s: seq<Rule>)
    ensures multiset(Insert(x, s)) == multiset(s) + multiset{x}
  {
    if s != [] && s[0].priority >= x.priority {
      InsertElements(x, s[1..]);
      assert s == [s[0]] + s[1..];
    }
  }

  lemma {:induction false} InsertSorted(x: Rule, s: seq<Rule>)
    requires SortedByPriority(s)
    ensures SortedByPriority(Insert(x, s))
  {
    if s != [] && s[0].priority >= x.priority {
      InsertSorted(x, s[1..]);
      InsertElements(x, s[1..]);
      var t := Insert(x, s[1..]);
      forall k | 0 <= k < |t| ensures s[0].priority >= t[k].priority {
        assert t[k] in multiset(t);
        assert t[k] == x || t[k] in multiset(s[1..]);
        if t[k] != x {
          assert t[k] in s[1..];
        }
      }
    }
  }

  lemma AtPriorityCons(r: Rule, t: seq<Rule>, p: int)
    ensures AtPriority([r] + t, p) == (if r.priority == p then [r] else []) + AtPriority(t, p)
  {
    assert ([r] + t)[1..] == t;
  }

  /** Insert puts x after every rule of its own priority. */
  lemma {:induction false} InsertStable(x: Rule, s: seq<Rule>, p: int)
    requires SortedByPriority(s)
    ensures AtPriority(Insert(x, s), p) == AtPriority(s, p) + (if x.priority == p then [x] else [])
  {
    if s == [] {
    } else if s[0].priority >= x.priority {
      InsertStable(x, s[1..], p);
      AtPriorityCons(s[0], Insert(x, s[1..]), p);
    } else {
      AtPriorityCons(x, s, p);
      if x.priority == p {
        NoneBelow(s, p);
      }
    }
  }

  /** In a sorted sequence that starts below p, nothing has priority p. */
  lemma {:induction false} NoneBelow(s: seq<Rule>, p: int)
    requires SortedByPriority(s) && s != [] && s[0].priority < p
    ensures AtPriority(s, p) == []
  {
    if |s| > 1 {
      NoneBelow(s[1..], p);
    }
  }

  /**
   * The sort's three promises: descending priority, the same rules, and among
   * rules of one priority the order they had before.
   */
  lemma {:induction false} SortByPriorityCorrect(s: seq<Rule>)
    ensures SortedByPriority(SortByPriority(s))
    ensures multiset(SortByPriority(s)) == multiset(s)
    ensures forall p :: AtPriority(SortByPriority(s), p) == AtPriority(s, p)
  {
    SortPermutes(s);
    forall p ensures AtPriority(SortByPriority(s), p) == AtPriority(s, p) {
      SortStable(s, p);
    }
  }

  /** The sort keeps every rule, each as often as before. */
  lemma {:induction false} SortPermutes(s: seq<Rule>)
    ensures multiset(SortByPriority(s)) == multiset(s)
  {
    if s != [] {
      var init, last := s[..|s| - 1], s[|s| - 1];
      SortPermutes(init);
      assert s == init + [last];
      InsertElements(last, SortByPriority(init));
    }
  }

  /** Among rules of priority p the sort keeps the order they had before. */
  lemma {:induction false} SortStable(s: seq<Rule>, p: int)
    ensures AtPriority(SortByPriority(s), p) == AtPriority(s, p)
  {
    if s != [] {
      var init, last := s[..|s| - 1], s[|s| - 1];
      SortStable(init, p);
      assert s == init + [last];
      InsertStable(last, SortByPriority(init), p);
      AtPriorityAppend(init, [last], p);
    }
  }

  // ---------------------------------------------------------------- the loader

  /** The rules of a list whose entries are all valid, in list order. */
  function RulesOf(items: seq<Json>): (r: seq<Rule>)
    requires forall k :: 0 <= k < |items| ==> ValidEntry(items[k])
    ensures |r| == |items|
  {
    seq(|items|, k requires 0 <= k < |items| => RuleOf(items[k]))
  }

  /**
   * load_database after json.load: the error for the first entry that fails a
   * check, or every entry as a rule, sorted by descending priority and stable.
   */
  method LoadDatabase(doc: Json) returns (r: Result<seq<Rule>, LoadError>)
    ensures !doc.List? ==> r == Err(NotAList)
    ensures doc.List? ==> (r.Ok? <==> forall k :: 0 <= k < |doc.items| ==> ValidEntry(doc.items[k]))
    ensures doc.List? && r.Err? ==>
      exists k :: 0 <= k < |doc.items| && !ValidEntry(doc.items[k]) && r.error == EntryError(doc.items[k], k)
        && forall j :: 0 <= j < k ==> ValidEntry(doc.items[j])
    ensures r.Ok? ==>
      var rules := RulesOf(doc.items);
      SortedByPriority(r.value) && multiset(r.value) == multiset(rules)
      && forall p :: AtPriority(r.value, p) == AtPriority(rules, p)
  {
    if !doc.List? {
      return Err(NotAList);
    }
    var items := doc.items;
    var validated: seq<Rule> := [];
    var i := 0;
    while i < |items|
      invariant 0 <= i <= |items|
      invariant forall k :: 0 <= k < i ==> ValidEntry(items[k])
      invariant validated == RulesOf(items[..i])
    {
      if !ValidEntry(items[i]) {
        return Err(EntryError(items[i], i));
      }
      validated := validated + [RuleOf(items[i])];
      i := i + 1;
    }
    assert items[..i] == items;
    SortByPriorityCorrect(validated);
    r := Ok(SortByPriority(validated));
  }
}
