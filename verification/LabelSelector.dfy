/** Equality-based label selectors, as the in-memory API server reads them. */
module LabelSelector {
  import opened Wrappers
  import opened Seqs
  import opened Strings
  import opened LabelRules
  import opened MergePatch

  /** The test one clause stands for. */
  datatype Test = Is(key: string, value: string, negated: bool) | Has(key: string, negated: bool)

  predicate Passes(t: Test, labels: StringMap) {
    match t
    case Is(k, v, negated) => (k in labels && labels[k] == v) != negated
    case Has(k, negated) => (k in labels) != negated
  }

  predicate PrefixChar(c: char) { LowerAlnum(c) || c == '.' || c == '-' }

  predicate KeyShape(s: string) {
    var i := IndexOf(s, '/');
    if i == |s| then NameShape(s)
    else i > 0 && (forall k :: 0 <= k < i ==> PrefixChar(s[k])) && NameShape(s[i + 1..])
  }

  predicate SelectorKey(s: string) { UpToNewline(s, KeyShape) }

  function Guarded(key: string, t: Test): Option<Test> {
    if SelectorKey(key) then Some(t) else None
  }

  /** One clause as a test, or None where the API server answers 400. The operators are looked for
      in this order, so `k==v` is not read as `k=` with the value `=v`. */
  function LabelMatcher(clause: string): Option<Test> {
    var (kn, differs, vn) := Partition(clause, "!=");
    var (ke, equals, ve) := Partition(clause, "==");
    var (k, equal, v) := Partition(clause, "=");
    if differs then Guarded(Strip(kn), Is(Strip(kn), Strip(vn), true))
    else if equals then Guarded(Strip(ke), Is(Strip(ke), Strip(ve), false))
    else if equal then Guarded(Strip(k), Is(Strip(k), Strip(v), false))
    else
      var negated := StartsWith(clause, "!");
      var key := Strip(if negated then clause[1..] else clause);
      Guarded(key, Has(key, negated))
  }

  function LabelMatchers(clauses: seq<string>): Option<seq<Test>> {
    if clauses == [] then Some([])
    else
      var first, rest := LabelMatcher(Strip(clauses[0])), LabelMatchers(clauses[1..]);
      if first.Some? && rest.Some? then Some([first.value] + rest.value) else None
  }

  predicate PassesAll(tests: seq<Test>, labels: StringMap) {
    forall i :: 0 <= i < |tests| ==> Passes(tests[i], labels)
  }

  /** What the in-memory server tests labels against; None where it answers 400. */
  function Selector(selector: string): Option<seq<Test>> {
    if selector == "" then Some([]) else LabelMatchers(Split(selector, ','))
  }

  /******* Reading back what was written *******/

  /** A clause as a caller means it. */
  datatype Clause =
    | Equal(key: string, value: string)
    | DoubleEqual(key: string, value: string)
    | NotEqual(key: string, value: string)
    | Exists(key: string)
    | NotExists(key: string)

  function Print(c: Clause): string {
    match c
    case Equal(k, v) => k + "=" + v
    case DoubleEqual(k, v) => k + "==" + v
    case NotEqual(k, v) => k + "!=" + v
    case Exists(k) => k
    case NotExists(k) => "!" + k
  }

  /** What the clause promises; `!=` holds of labels without the key. */
  predicate Holds(c: Clause, labels: StringMap) {
    match c
    case Equal(k, v) => k in labels && labels[k] == v
    case DoubleEqual(k, v) => k in labels && labels[k] == v
    case NotEqual(k, v) => k in labels ==> labels[k] != v
    case Exists(k) => k in labels
    case NotExists(k) => k !in labels
  }

  predicate ValueShape(v: string) { v == "" || NameShape(v) }

  predicate WellFormed(c: Clause) {
    KeyShape(c.key) && (c.Exists? || c.NotExists? || ValueShape(c.value))
  }

  /** A key is a name, or a prefix of `a`-`z`, `0`-`9`, dots and dashes, a slash and a name. */
  lemma KeyShapeMeans(prefix: string, name: string)
    requires '/' !in prefix
    ensures '/' !in name ==> (KeyShape(name) <==> NameShape(name))
    ensures KeyShape(prefix + ['/'] + name) <==>
              prefix != "" && NameShape(name)
              && forall c :: c in prefix ==> 'a' <= c <= 'z' || '0' <= c <= '9' || c == '.' || c == '-'
  {
    var s := prefix + ['/'] + name;
    IndexOfFirst(prefix, '/', name);
    assert s[|prefix| + 1..] == name && forall k :: 0 <= k < |prefix| ==> s[k] == prefix[k] && s[k] in prefix;
    if '/' !in name {
      SplitFirst(name, '/', "");
      IndexOfFirst(name, '/', "");
    }
  }

  function TestOf(c: Clause): Test {
    match c
    case Equal(k, v) => Is(k, v, false)
    case DoubleEqual(k, v) => Is(k, v, false)
    case NotEqual(k, v) => Is(k, v, true)
    case Exists(k) => Has(k, false)
    case NotExists(k) => Has(k, true)
  }

  lemma TestOfMeans(c: Clause, labels: StringMap)
    ensures Passes(TestOf(c), labels) <==> Holds(c, labels)
  {
  }

  /** A character that may stand in a key or a value: no operator, no comma, no white space. */
  predicate Plain(c: char) { Alnum(c) || c in "-_./" }

  predicate AllPlain(s: string) { forall i :: 0 <= i < |s| ==> Plain(s[i]) }

  lemma KeysArePlain(s: string)
    requires KeyShape(s)
    ensures AllPlain(s) && s != ""
  {
    var i := IndexOf(s, '/');
    if i == |s| {
      assert forall k :: 0 <= k < |s| ==> s[k] in s;
    } else {
      var name := s[i + 1..];
      forall k | 0 <= k < |s| ensures Plain(s[k]) {
        if k > i {
          assert s[k] == name[k - i - 1] && name[k - i - 1] in name;
        }
      }
    }
  }

  lemma ValuesArePlain(s: string)
    requires ValueShape(s)
    ensures AllPlain(s)
  {
    assert forall k :: 0 <= k < |s| ==> s[k] in s;
  }

  lemma StripsToItself(s: string)
    requires AllPlain(s)
    ensures Strip(s) == s
  {
    StripPlain(s);
  }

  lemma OneEqualSignIsNotTwo(k: string, v: string)
    requires '=' !in k && '=' !in v
    ensures !Partition(k + "=" + v, "==").1
  {
    var s := k + "=" + v;
    assert forall i :: 0 <= i < |s| && i != |k| ==> s[i] != '=';
    var op := "==";
    assert op[0] == op[1] == '=';
    forall i: nat ensures !At(s, op, i) {
      AtMeans(s, op, i);
    }
  }

  /** An operator between plain texts is found where it stands, and no other operator is. */
  lemma FindsOperator(k: string, op: string, v: string)
    requires '=' !in k && '!' !in k && '=' !in v && '!' !in v && op in {"!=", "==", "="}
    ensures Partition(k + op + v, op) == (k, true, v)
    ensures op != "!=" ==> !Partition(k + op + v, "!=").1
    ensures op == "=" ==> !Partition(k + op + v, "==").1
  {
    PartsAtFirst(k, op, v);
    if op != "!=" {
      PartitionMisses(k + op + v, "!=");
    }
    if op == "=" {
      OneEqualSignIsNotTwo(k, v);
    }
  }

  lemma MatcherUndoesPrint(c: Clause)
    requires WellFormed(c)
    ensures LabelMatcher(Print(c)) == Some(TestOf(c))
  {
    KeysArePlain(c.key);
    StripsToItself(c.key);
    match c
    case Equal(k, v) => ValuesArePlain(v); StripsToItself(v); FindsOperator(k, "=", v);
    case DoubleEqual(k, v) => ValuesArePlain(v); StripsToItself(v); FindsOperator(k, "==", v);
    case NotEqual(k, v) => ValuesArePlain(v); StripsToItself(v); FindsOperator(k, "!=", v);
    case Exists(k) => NoOperator(k);
    case NotExists(k) => NoOperator(k); assert ("!" + k)[1..] == k;
  }

  /** White space around a key, an operator or a value does not change what a clause means. */
  lemma SpacesDoNotMatter(a: string, k: string, b: string, op: string, c: string, v: string, d: string)
    requires AllSpaces(a) && AllSpaces(b) && AllSpaces(c) && AllSpaces(d)
    requires KeyShape(k) && ValueShape(v) && op in {"!=", "==", "="}
    ensures LabelMatcher((a + k + b) + op + (c + v + d)) == Some(Is(k, v, op == "!="))
  {
    KeysArePlain(k);
    ValuesArePlain(v);
    SpacesAreNotPlain();
    StripAround(a, k, b);
    StripAround(c, v, d);
    FindsOperator(a + k + b, op, c + v + d);
  }

  lemma SpacesAreNotPlain()
    ensures forall x: char :: x in SPACES ==> !Plain(x) && x != '=' && x != '!'
  {
    forall x: char | x in SPACES ensures !Plain(x) && x != '=' && x != '!' {
      SpacesAre(x);
    }
  }

  /** A value may be left out: the clause then asks for the empty value. */
  lemma EmptyValuesAreRead(k: string)
    requires KeyShape(k)
    ensures LabelMatcher(k + "=") == LabelMatcher(k + "==") == Some(Is(k, "", false))
    ensures LabelMatcher(k + "!=") == Some(Is(k, "", true))
  {
    MatcherUndoesPrint(Equal(k, ""));
    MatcherUndoesPrint(DoubleEqual(k, ""));
    MatcherUndoesPrint(NotEqual(k, ""));
    assert k + "=" + "" == k + "=" && k + "==" + "" == k + "==" && k + "!=" + "" == k + "!=";
  }

  /** A clause whose key is not a key is refused, with an operator or without; any other is read. */
  lemma KeysAreChecked(k: string, op: string, v: string)
    requires '=' !in k && '!' !in k && '=' !in v && '!' !in v && op in {"!=", "==", "="}
    ensures LabelMatcher(k + op + v) == None <==> !KeyShape(Strip(k))
    ensures LabelMatcher(k) == None <==> !KeyShape(Strip(k))
    ensures LabelMatcher("!" + k) == None <==> !KeyShape(Strip(k))
  {
    FindsOperator(k, op, v);
    NoOperator(k);
    StrippedKey(k);
    assert ("!" + k)[1..] == k;
  }

  /** Once stripped, a text ends in no newline. */
  lemma StrippedKey(k: string)
    ensures SelectorKey(Strip(k)) <==> KeyShape(Strip(k))
  {
    StripLeavesNoSpace(k);
    if Strip(k) != "" {
      SpacesAre('\n');
    }
  }

  lemma NoOperator(k: string)
    requires '=' !in k && '!' !in k
    ensures !Partition(k, "!=").1 && !Partition(k, "==").1 && !Partition(k, "=").1 && !StartsWith(k, "!")
    ensures !Partition("!" + k, "!=").1 && !Partition("!" + k, "==").1 && !Partition("!" + k, "=").1
  {
    var s := "!" + k;
    assert '=' !in s;
    PartitionMisses(k, "!=");
    PartitionMisses(k, "==");
    PartitionMisses(k, "=");
    PartitionMisses(s, "==");
    PartitionMisses(s, "=");
    forall i: nat ensures !At(s, "!=", i) {
      AtMeans(s, "!=", i);
    }
  }

  lemma PrintedClauseIsOnePart(c: Clause)
    requires WellFormed(c)
    ensures ',' !in Print(c) && Strip(Print(c)) == Print(c) && Print(c) != ""
  {
    KeysArePlain(c.key);
    if !c.Exists? && !c.NotExists? {
      ValuesArePlain(c.value);
    }
    assert forall x :: x in Print(c) ==> Plain(x) || x == '!' || x == '=';
    StripPlain(Print(c));
  }

  function PrintAll(cs: seq<Clause>): seq<string> {
    Map(cs, Print)
  }

  lemma {:induction false} MatchersUndoPrint(cs: seq<Clause>)
    requires forall i :: 0 <= i < |cs| ==> WellFormed(cs[i])
    ensures LabelMatchers(PrintAll(cs)) == Some(Map(cs, TestOf))
  {
    if cs != [] {
      MatchersUndoPrint(cs[1..]);
      FirstIsMatched(cs);
      assert Map(cs, TestOf) == [TestOf(cs[0])] + Map(cs[1..], TestOf);
    }
  }

  lemma FirstIsMatched(cs: seq<Clause>)
    requires cs != [] && WellFormed(cs[0])
    ensures PrintAll(cs) != [] && PrintAll(cs)[1..] == PrintAll(cs[1..])
    ensures LabelMatcher(Strip(PrintAll(cs)[0])) == Some(TestOf(cs[0]))
  {
    PrintedClauseIsOnePart(cs[0]);
    MatcherUndoesPrint(cs[0]);
  }

  /** Parsing undoes printing: a printed list of well-formed clauses is read as exactly their
      conjunction. */
  lemma SelectorUndoesPrint(cs: seq<Clause>, labels: StringMap)
    requires |cs| > 0 && forall i :: 0 <= i < |cs| ==> WellFormed(cs[i])
    ensures var tests := Selector(Join(PrintAll(cs), ','));
            tests.Some? && (PassesAll(tests.value, labels) <==> forall i :: 0 <= i < |cs| ==> Holds(cs[i], labels))
  {
    var parts := PrintAll(cs);
    forall i | 0 <= i < |parts| ensures ',' !in parts[i] && parts[i] != "" {
      PrintedClauseIsOnePart(cs[i]);
    }
    SplitJoin(parts, ',');
    MatchersUndoPrint(cs);
    assert Join(parts, ',') != "" by {
      assert parts[0] != "";
    }
    var tests := Map(cs, TestOf);
    forall i | 0 <= i < |cs| ensures Passes(tests[i], labels) <==> Holds(cs[i], labels) {
      TestOfMeans(cs[i], labels);
    }
  }

  /** A selector with a malformed clause anywhere is refused as a whole. */
  lemma {:induction false} OneBadClauseRefusesAll(clauses: seq<string>)
    ensures LabelMatchers(clauses) == None
        <==> exists i :: 0 <= i < |clauses| && LabelMatcher(Strip(clauses[i])) == None
  {
    if clauses != [] {
      OneBadClauseRefusesAll(clauses[1..]);
      var rest := clauses[1..];
      assert forall i :: 0 <= i < |rest| ==> rest[i] == clauses[i + 1];
      if exists i :: 0 <= i < |clauses| && LabelMatcher(Strip(clauses[i])) == None {
        var i :| 0 <= i < |clauses| && LabelMatcher(Strip(clauses[i])) == None;
        assert i > 0 ==> LabelMatcher(Strip(rest[i - 1])) == None;
      }
    }
  }
}
