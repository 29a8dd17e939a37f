/** Kubernetes naming rules: DNS subdomains, label keys and values, reserved domains. */
module LabelRules {
  import opened Strings

  const RESERVED_DOMAINS: seq<string> := ["kubernetes.io", "k8s.io"]
  const DNS_SUBDOMAIN_MAX := 253
  const LABEL_NAME_MAX := 63

  predicate LowerAlnum(c: char) { 'a' <= c <= 'z' || '0' <= c <= '9' }

  predicate Alnum(c: char) { LowerAlnum(c) || 'A' <= c <= 'Z' }

  predicate DnsLabel(s: string) {
    && s != [] && LowerAlnum(s[0]) && LowerAlnum(s[|s| - 1])
    && forall c :: c in s ==> LowerAlnum(c) || c == '-'
  }

  predicate DottedLabels(s: string) {
    var parts := Split(s, '.');
    forall i :: 0 <= i < |parts| ==> DnsLabel(parts[i])
  }

  /** The patterns end in `$`, which also accepts one newline at the very end. */
  predicate UpToNewline(s: string, p: string -> bool) {
    p(s) || (s != [] && s[|s| - 1] == '\n' && p(s[..|s| - 1]))
  }

  predicate IsDnsSubdomain(s: string) {
    |s| <= DNS_SUBDOMAIN_MAX && UpToNewline(s, DottedLabels)
  }

  predicate NameShape(s: string) {
    && s != [] && Alnum(s[0]) && Alnum(s[|s| - 1])
    && forall c :: c in s ==> Alnum(c) || c in "-_."
  }

  predicate LabelName(s: string) {
    |s| <= LABEL_NAME_MAX && UpToNewline(s, NameShape)
  }

  predicate IsDomainOrSubdomain(domain: string, root: string) {
    domain == root || EndsWith(domain, "." + root)
  }

  predicate IsReservedDomain(domain: string) {
    exists i :: 0 <= i < |RESERVED_DOMAINS| && IsDomainOrSubdomain(domain, RESERVED_DOMAINS[i])
  }

  /** The part of a key before its last slash; a key without one is read as a whole. */
  predicate IsUnderDomain(key: string, domain: string) {
    var prefix := RPartition(key, '/').0;
    IsDomainOrSubdomain(if prefix != "" then prefix else key, domain)
  }

  predicate MalformedKey(key: string) {
    var (prefix, slash, name) := RPartition(key, '/');
    (slash && !IsDnsSubdomain(prefix)) || !LabelName(name)
  }

  predicate MalformedValue(value: string) {
    value != "" && !LabelName(value)
  }

  predicate IsReservedLabelKey(key: string) {
    var (prefix, slash, _) := RPartition(key, '/');
    slash && IsReservedDomain(prefix)
  }

  /** What `check_label_keys` and `check_annotation_keys` let through. */
  predicate KeyAllowed(key: string) {
    !MalformedKey(key) && !IsReservedLabelKey(key)
  }

  predicate LabelsAllowed(labels: map<string, string>) {
    forall k :: k in labels ==> KeyAllowed(k) && !MalformedValue(labels[k])
  }

  /******* The domain test is a test on labels *******/

  ghost predicate IsSuffix(tail: seq<string>, s: seq<string>) {
    |tail| <= |s| && s[|s| - |tail|..] == tail
  }

  lemma {:induction false} SplitAround(a: string, c: char, b: string)
    ensures Split(a + [c] + b, c) == Split(a, c) + Split(b, c)
    decreases |a|
  {
    var i := IndexOf(a, c);
    if i == |a| {
      SplitFirst(a, c, b);
    } else {
      var head, rest := a[..i], a[i + 1..];
      assert a == head + [c] + rest;
      Regroup(head, [c], rest, [c], b);
      SplitFirst(head, c, rest);
      SplitFirst(head, c, rest + [c] + b);
      SplitAround(rest, c, b);
      Regroup([head], [], Split(rest, c), [], Split(b, c));
    }
  }

  lemma Regroup<T>(a: seq<T>, x: seq<T>, b: seq<T>, y: seq<T>, c: seq<T>)
    ensures (a + x + b) + y + c == a + x + (b + y + c)
    ensures x == y == [] ==> (a + b) + c == a + (b + c)
  {
  }

  lemma {:induction false} JoinAround(p: seq<string>, c: char, q: seq<string>)
    requires |p| > 0 && |q| > 0
    ensures Join(p + q, c) == Join(p, c) + [c] + Join(q, c)
  {
    if |p| == 1 {
      assert (p + q)[1..] == q;
    } else {
      assert (p + q)[1..] == p[1..] + q;
      JoinAround(p[1..], c, q);
      assert p[0] + [c] + (Join(p[1..], c) + [c] + Join(q, c)) == (p[0] + [c] + Join(p[1..], c)) + [c] + Join(q, c);
    }
  }

  /** `domain` is `root` or below it exactly when the dotted labels of `root` end those of `domain`:
      never because two names merely end in the same letters. */
  lemma DomainTestIsLabelSuffix(domain: string, root: string)
    ensures IsDomainOrSubdomain(domain, root) <==> IsSuffix(Split(root, '.'), Split(domain, '.'))
  {
    if EndsWith(domain, "." + root) {
      var head := domain[..|domain| - |root| - 1];
      assert domain == head + ['.'] + root;
      SplitAround(head, '.', root);
    }
    if IsSuffix(Split(root, '.'), Split(domain, '.')) {
      SuffixIsDomain(domain, root);
    }
  }

  lemma SuffixIsDomain(domain: string, root: string)
    requires IsSuffix(Split(root, '.'), Split(domain, '.'))
    ensures IsDomainOrSubdomain(domain, root)
  {
    var d, r := Split(domain, '.'), Split(root, '.');
    var p := d[..|d| - |r|];
    assert d == p + r;
    JoinSplit(domain, '.');
    JoinSplit(root, '.');
    if p == [] {
      assert d == r;
    } else {
      JoinAround(p, '.', r);
      EndsInRoot(Join(p, '.'), root);
    }
  }

  lemma EndsInRoot(head: string, root: string)
    ensures EndsWith(head + ['.'] + root, "." + root)
  {
  }

  /** Being at or below a domain is transitive: a subdomain's subdomain is a subdomain. */
  lemma DomainsNest(a: string, b: string, c: string)
    requires IsDomainOrSubdomain(a, b) && IsDomainOrSubdomain(b, c)
    ensures IsDomainOrSubdomain(a, c)
  {
    DomainTestIsLabelSuffix(a, b);
    DomainTestIsLabelSuffix(b, c);
    DomainTestIsLabelSuffix(a, c);
    var x, y, z := Split(a, '.'), Split(b, '.'), Split(c, '.');
    assert x[|x| - |z|..] == x[|x| - |y|..][|y| - |z|..];
  }

  /** Exactly the two domains of Kubernetes and what is below them are reserved. */
  lemma ReservedDomainsAreTwo(domain: string)
    ensures IsReservedDomain(domain)
        <==> IsSuffix(["kubernetes", "io"], Split(domain, '.')) || IsSuffix(["k8s", "io"], Split(domain, '.'))
  {
    OneOfTwo(domain);
    RootsSplit();
    DomainTestIsLabelSuffix(domain, "kubernetes.io");
    DomainTestIsLabelSuffix(domain, "k8s.io");
  }

  lemma OneOfTwo(domain: string)
    ensures IsReservedDomain(domain)
        <==> IsDomainOrSubdomain(domain, "kubernetes.io") || IsDomainOrSubdomain(domain, "k8s.io")
  {
    assert RESERVED_DOMAINS[0] == "kubernetes.io" && RESERVED_DOMAINS[1] == "k8s.io";
  }

  lemma RootsSplit()
    ensures Split("kubernetes.io", '.') == ["kubernetes", "io"] && Split("k8s.io", '.') == ["k8s", "io"]
  {
    assert "kubernetes" + ['.'] + "io" == "kubernetes.io" && "k8s" + ['.'] + "io" == "k8s.io";
    TwoLabels("kubernetes", "io");
    TwoLabels("k8s", "io");
  }

  lemma TwoLabels(a: string, b: string)
    requires '.' !in a && '.' !in b
    ensures Split(a + ['.'] + b, '.') == [a, b]
  {
    SplitFirst(a, '.', b);
    SplitFirst(b, '.', "");
  }

  /** A key is under a domain by what is before its last slash; a key without a slash, by the whole key. */
  lemma UnderDomainMeans(head: string, name: string, domain: string)
    requires '/' !in name
    ensures head != "" ==>
              (IsUnderDomain(head + ['/'] + name, domain) <==> IsSuffix(Split(domain, '.'), Split(head, '.')))
    ensures IsUnderDomain(name, domain) <==> IsSuffix(Split(domain, '.'), Split(name, '.'))
  {
    RPartitionLast(head, '/', name);
    RPartitionRejoins(name, '/');
    RPartitionWithout(name, '/');
    DomainTestIsLabelSuffix(head, domain);
    DomainTestIsLabelSuffix(name, domain);
  }

  lemma {:induction false} RPartitionWithout(s: string, c: char)
    requires c !in s
    ensures RPartition(s, c) == ("", false, s)
    decreases |s|
  {
    if s != [] {
      RPartitionWithout(s[..|s| - 1], c);
      assert s[..|s| - 1] + [s[|s| - 1]] == s;
    }
  }

  /** The three shapes, character by character. */
  lemma ShapesByCharacter(s: string)
    ensures DnsLabel(s) <==> s != "" && forall i :: 0 <= i < |s| ==>
              'a' <= s[i] <= 'z' || '0' <= s[i] <= '9' || (s[i] == '-' && 0 < i < |s| - 1)
    ensures NameShape(s) <==> s != "" && forall i :: 0 <= i < |s| ==>
              'a' <= s[i] <= 'z' || 'A' <= s[i] <= 'Z' || '0' <= s[i] <= '9'
              || ((s[i] == '-' || s[i] == '_' || s[i] == '.') && 0 < i < |s| - 1)
  {
    forall c ensures c in "-_." <==> c == '-' || c == '_' || c == '.' {
      assert "-_."[0] == '-' && "-_."[1] == '_' && "-_."[2] == '.';
    }
    assert forall i :: 0 <= i < |s| ==> s[i] in s;
  }

  /** In numbers: what is no longer than 253 characters, or 63, and ends in no newline is accepted exactly when
      it has the shape; nothing longer is. */
  lemma Lengths(s: string)
    ensures |s| > 253 ==> !IsDnsSubdomain(s)
    ensures |s| > 63 ==> !LabelName(s)
    ensures |s| <= 253 && !EndsInNewline(s) ==> (IsDnsSubdomain(s) <==> DottedLabels(s))
    ensures |s| <= 63 && !EndsInNewline(s) ==> (LabelName(s) <==> NameShape(s))
  {
    if !EndsInNewline(s) {
      ChecksAreExactWithoutNewline(s);
    }
  }

  /******* What a newline at the end gets past *******/

  predicate EndsInNewline(s: string) {
    s != [] && s[|s| - 1] == '\n'
  }

  /** `s` without the newline at its end, if it has one. */
  function Chomp(s: string): string {
    if EndsInNewline(s) then s[..|s| - 1] else s
  }

  lemma SameLast(first: string, rest: seq<string>)
    requires rest != []
    ensures var all := [first] + rest; all[|all| - 1] == rest[|rest| - 1]
  {
  }

  /** The last part of a text ends as the text does, unless the text ends in the separator. */
  lemma {:induction false} LastPartEndsAlike(s: string, c: char)
    requires s != [] && s[|s| - 1] != c
    ensures var last := Split(s, c)[|Split(s, c)| - 1]; last != [] && last[|last| - 1] == s[|s| - 1]
    decreases |s|
  {
    var i := IndexOf(s, c);
    if i < |s| {
      var rest := s[i + 1..];
      assert rest != [] && rest[|rest| - 1] == s[|s| - 1];
      LastPartEndsAlike(rest, c);
      SameLast(s[..i], Split(rest, c));
    }
  }

  lemma NoNewlineAtTheEnd(s: string)
    requires EndsInNewline(s)
    ensures !DottedLabels(s) && !NameShape(s)
  {
    LastPartEndsAlike(s, '.');
    var parts := Split(s, '.');
    assert !DnsLabel(parts[|parts| - 1]);
  }

  /** The subdomain check accepts a text that is no DNS subdomain exactly when the text is one followed
      by a single newline, within the length. */
  lemma SubdomainCheckErrsIff(s: string)
    ensures IsDnsSubdomain(s) && !DottedLabels(s)
        <==> |s| <= DNS_SUBDOMAIN_MAX && EndsInNewline(s) && DottedLabels(Chomp(s))
  {
    if EndsInNewline(s) {
      NoNewlineAtTheEnd(s);
    }
  }

  lemma LabelNameCheckErrsIff(s: string)
    ensures LabelName(s) && !NameShape(s) <==> |s| <= LABEL_NAME_MAX && EndsInNewline(s) && NameShape(Chomp(s))
  {
    if EndsInNewline(s) {
      NoNewlineAtTheEnd(s);
    }
  }

  /** So without a newline at the end both checks are exact. */
  lemma ChecksAreExactWithoutNewline(s: string)
    requires !EndsInNewline(s)
    ensures IsDnsSubdomain(s) <==> |s| <= DNS_SUBDOMAIN_MAX && DottedLabels(s)
    ensures LabelName(s) <==> |s| <= LABEL_NAME_MAX && NameShape(s)
  {
    SubdomainCheckErrsIff(s);
    LabelNameCheckErrsIff(s);
  }

  /** What a key is meant to be: a DNS subdomain that is not reserved and a slash, or neither, and a name. */
  predicate ProperKey(key: string) {
    var (prefix, slash, name) := RPartition(key, '/');
    && (slash ==> |prefix| <= DNS_SUBDOMAIN_MAX && DottedLabels(prefix) && !IsReservedDomain(prefix))
    && |name| <= LABEL_NAME_MAX && NameShape(name)
  }

  /** Whether a newline stands at the end of the prefix or of the name. */
  predicate NewlineInKey(key: string) {
    var (prefix, slash, name) := RPartition(key, '/');
    (slash && EndsInNewline(prefix)) || EndsInNewline(name)
  }

  /** The keys let through that are not proper are exactly the well-formed ones with such a newline,
      their prefix reserved or not once it is dropped. */
  lemma KeyCheckErrsIff(key: string)
    ensures KeyAllowed(key) && !ProperKey(key)
        <==> KeyAllowed(key) && NewlineInKey(key)
    ensures !NewlineInKey(key) ==> (KeyAllowed(key) <==> ProperKey(key))
  {
    var (prefix, slash, name) := RPartition(key, '/');
    SubdomainCheckErrsIff(prefix);
    LabelNameCheckErrsIff(name);
    if EndsInNewline(prefix) {
      NoNewlineAtTheEnd(prefix);
    }
    if EndsInNewline(name) {
      NoNewlineAtTheEnd(name);
    }
  }

  /** Dropping the newline from its prefix shows that the key is reserved after all. */
  predicate EscapesReservation(key: string) {
    var (prefix, slash, _) := RPartition(key, '/');
    KeyAllowed(key) && slash && IsReservedDomain(Chomp(prefix))
  }

  lemma ReservedDomainsEndInLetters(domain: string)
    requires IsReservedDomain(domain)
    ensures domain != [] && domain[|domain| - 1] == 'o'
  {
    var i :| 0 <= i < |RESERVED_DOMAINS| && IsDomainOrSubdomain(domain, RESERVED_DOMAINS[i]);
    var root := RESERVED_DOMAINS[i];
    assert root[|root| - 1] == 'o';
    if domain != root {
      assert domain[|domain| - |root| - 1..][|root|] == root[|root| - 1];
    }
  }

  /** The reserved-domain rule is got past by exactly these keys: a reserved domain, a newline, a slash
      and a name. */
  lemma ReservationEscapedIff(key: string)
    ensures EscapesReservation(key)
        <==> exists domain, name :: key == domain + "\n" + ['/'] + name && EscapingParts(domain, name)
  {
    var (prefix, slash, name) := RPartition(key, '/');
    if EscapesReservation(key) {
      RPartitionRejoins(key, '/');
      var domain := Chomp(prefix);
      ReservedDomainsEndInLetters(domain);
      assert EndsInNewline(prefix);
      assert prefix == domain + "\n";
      SubdomainCheckErrsIff(prefix);
      NoNewlineAtTheEnd(prefix);
      assert EscapingParts(domain, name);
    }
    if exists d, n :: key == d + "\n" + ['/'] + n && EscapingParts(d, n) {
      var d, n :| key == d + "\n" + ['/'] + n && EscapingParts(d, n);
      PartsEscape(d, n);
    }
  }

  predicate EscapingParts(domain: string, name: string) {
    |domain| < DNS_SUBDOMAIN_MAX && DottedLabels(domain) && IsReservedDomain(domain) && LabelName(name)
  }

  lemma NamesHaveNoSlash(name: string)
    requires LabelName(name)
    ensures '/' !in name
  {
    assert EndsInNewline(name) ==> name == Chomp(name) + ['\n'];
  }

  lemma PartsEscape(domain: string, name: string)
    requires EscapingParts(domain, name)
    ensures EscapesReservation(domain + "\n" + ['/'] + name)
  {
    var prefix := domain + "\n";
    NamesHaveNoSlash(name);
    RPartitionLast(prefix, '/', name);
    assert Chomp(prefix) == domain;
    if IsReservedDomain(prefix) {
      ReservedDomainsEndInLetters(prefix);
    }
  }

  lemma {:induction false} RPartitionRejoins(s: string, c: char)
    ensures var (head, found, tail) := RPartition(s, c);
            c !in tail && s == (if found then head + [c] + tail else tail)
    decreases |s|
  {
    if s != [] && s[|s| - 1] != c {
      RPartitionRejoins(s[..|s| - 1], c);
      var (head, found, tail) := RPartition(s[..|s| - 1], c);
      assert s == s[..|s| - 1] + [s[|s| - 1]];
    }
  }

  /** An input of each: a text that is no DNS name, and a key of a reserved domain. */
  lemma NewlineIsAccepted()
    ensures IsDnsSubdomain("a\n") && !DottedLabels("a\n")
    ensures KeyAllowed("k8s.io\n/x") && EscapesReservation("k8s.io\n/x") && IsReservedLabelKey("k8s.io/x")
  {
    NewlineInDomain();
    NewlineInKeyPrefix();
  }

  lemma NewlineInDomain()
    ensures IsDnsSubdomain("a\n") && !DottedLabels("a\n")
  {
    OneLabel("a");
    SubdomainCheckErrsIff("a\n");
    assert Chomp("a\n") == "a";
  }

  lemma NewlineInKeyPrefix()
    ensures KeyAllowed("k8s.io\n/x") && EscapesReservation("k8s.io\n/x") && IsReservedLabelKey("k8s.io/x")
  {
    K8sDomain();
    assert LabelName("x");
    PartsEscape("k8s.io", "x");
    assert "k8s.io" + "\n" + ['/'] + "x" == "k8s.io\n/x";
    PlainK8sKeyIsReserved();
  }

  lemma PlainK8sKeyIsReserved()
    ensures IsReservedLabelKey("k8s.io/x")
  {
    K8sDomain();
    RPartitionLast("k8s.io", '/', "x");
    assert "k8s.io" + ['/'] + "x" == "k8s.io/x";
  }

  lemma OneLabel(s: string)
    requires DnsLabel(s) && '.' !in s
    ensures Split(s, '.') == [s] && DottedLabels(s)
  {
    SplitFirst(s, '.', "");
  }

  lemma K8sDomain()
    ensures DottedLabels("k8s.io") && IsReservedDomain("k8s.io") && |"k8s.io"| < DNS_SUBDOMAIN_MAX
  {
    var k8s, io := "k8s", "io";
    SplitFirst(k8s, '.', io);
    OneLabel(io);
    assert "k8s.io" == k8s + ['.'] + io;
    assert DnsLabel(k8s) && DnsLabel(io);
    assert IsDomainOrSubdomain("k8s.io", RESERVED_DOMAINS[1]);
  }
}
