/** The names under which a service port is configured in HAProxy, and how the service list reads them back. */
module Names {
  import opened Api

  const BACKEND_PREFIX := "BACKEND."
  const FRONTEND_PREFIX := "FRONTEND."
  const BIND_PREFIX := "BIND."

  // strings.ReplaceAll for one-character arguments.
  function ReplaceAll(s: string, from: char, to: char): (r: string)
    ensures |r| == |s|
    ensures forall i | 0 <= i < |s| :: r[i] == if s[i] == from then to else s[i]
  {
    seq(|s|, i requires 0 <= i < |s| => if s[i] == from then to else s[i])
  }

  /** The key used in activeServices and, behind a prefix, as backend, frontend and bind name. */
  function EncodedName(spn: ServicePortName): string {
    ReplaceAll(ReplaceAll(spn.String(), '/', '.'), ':', '.')
  }

  function BackendName(key: string): string { BACKEND_PREFIX + key }

  function FrontendName(key: string): string { FRONTEND_PREFIX + key }

  function BindName(key: string): string { BIND_PREFIX + key }

  /** What Kubernetes guarantees of namespaces, service names and port names: labels as in section 2.1 of
      RFC 1123, restricted to lower case. */
  predicate IsLabel(s: string) {
    && s != ""
    && (forall i | 0 <= i < |s| :: 'a' <= s[i] <= 'z' || '0' <= s[i] <= '9' || s[i] == '-')
  }

  predicate IsLabelled(spn: ServicePortName) {
    IsLabel(spn.nn.namespace) && IsLabel(spn.nn.name) && (spn.port == "" || IsLabel(spn.port))
  }

  /** Port names are unique within a service, so the name of a port determines its protocol. */
  ghost predicate PortNamesUnique(spns: set<ServicePortName>) {
    forall p, q | p in spns && q in spns && p.nn == q.nn && p.port == q.port :: p == q
  }

  ghost predicate KubernetesNames(spns: set<ServicePortName>) {
    PortNamesUnique(spns) && forall p | p in spns :: IsLabelled(p)
  }

  // ---------- the encoding is injective ----------

  function Dotted(spn: ServicePortName): string {
    spn.nn.namespace + "." + Tail(spn)
  }

  function Tail(spn: ServicePortName): string {
    if spn.port == "" then spn.nn.name else spn.nn.name + "." + spn.port
  }

  lemma TailDots(spn: ServicePortName)
    requires IsLabelled(spn)
    ensures '.' in Tail(spn) <==> spn.port != ""
  {
    if spn.port != "" {
      FirstDot(spn.nn.name, spn.port);
    }
  }

  lemma EncodedIsDotted(spn: ServicePortName)
    requires IsLabelled(spn)
    ensures EncodedName(spn) == Dotted(spn)
  {
    var s, d := spn.String(), Dotted(spn);
    var n, m := |spn.nn.namespace|, |spn.nn.name|;
    assert |s| == |d|;
    forall i | 0 <= i < |s| ensures EncodedName(spn)[i] == d[i] {
      if i < n {
        assert s[i] == d[i] == spn.nn.namespace[i];
      } else if i > n && i - n - 1 < m {
        assert s[i] == d[i] == spn.nn.name[i - n - 1];
      } else if i > n + m + 1 {
        assert s[i] == d[i] == spn.port[i - n - m - 2];
      }
    }
  }

  lemma FirstDot(a: string, b: string)
    requires '.' !in a
    ensures (a + "." + b)[|a|] == '.' && forall i | 0 <= i < |a| :: (a + "." + b)[i] != '.'
    ensures a == (a + "." + b)[..|a|] && b == (a + "." + b)[|a| + 1..]
  {
  }

  lemma SplitAtDot(a: string, b: string, x: string, y: string)
    requires '.' !in a && '.' !in x
    requires a + "." + b == x + "." + y
    ensures a == x && b == y
  {
    FirstDot(a, b);
    FirstDot(x, y);
  }

  /** Two service ports share an encoded name exactly when they are ports of one service with one name. */
  lemma EncodedNameExact(p: ServicePortName, q: ServicePortName)
    requires IsLabelled(p) && IsLabelled(q)
    ensures EncodedName(p) == EncodedName(q) <==> p.nn == q.nn && p.port == q.port
  {
    EncodedIsDotted(p);
    EncodedIsDotted(q);
    if Dotted(p) == Dotted(q) {
      SplitAtDot(p.nn.namespace, Tail(p), q.nn.namespace, Tail(q));
      TailDots(p);
      TailDots(q);
      if p.port != "" && q.port != "" {
        SplitAtDot(p.nn.name, p.port, q.nn.name, q.port);
      }
    }
  }

  lemma PrefixedInjective(prefix: string, a: string, b: string)
    ensures prefix + a == prefix + b <==> a == b
  {
    assert a == (prefix + a)[|prefix|..] && b == (prefix + b)[|prefix|..];
  }

  /** Distinct service ports never share a backend, frontend or bind name. */
  lemma NamesInjective(spns: set<ServicePortName>, p: ServicePortName, q: ServicePortName)
    requires KubernetesNames(spns) && p in spns && q in spns && p != q
    ensures BackendName(EncodedName(p)) != BackendName(EncodedName(q))
    ensures FrontendName(EncodedName(p)) != FrontendName(EncodedName(q))
    ensures BindName(EncodedName(p)) != BindName(EncodedName(q))
  {
    EncodedNameExact(p, q);
    PrefixedInjective(BACKEND_PREFIX, EncodedName(p), EncodedName(q));
    PrefixedInjective(FRONTEND_PREFIX, EncodedName(p), EncodedName(q));
    PrefixedInjective(BIND_PREFIX, EncodedName(p), EncodedName(q));
  }

  /** Both hypotheses matter: a dot in a service name, or one port name used for two protocols, makes two service
      ports collide. */
  lemma NamesCollideWithoutHypotheses()
    ensures EncodedName(ServicePortName(NamespacedName("a", "b.c"), "", "TCP"))
         == EncodedName(ServicePortName(NamespacedName("a", "b"), "c", "TCP"))
    ensures EncodedName(ServicePortName(NamespacedName("a", "b"), "dns", "TCP"))
         == EncodedName(ServicePortName(NamespacedName("a", "b"), "dns", UDP))
  {
    var p := ServicePortName(NamespacedName("a", "b.c"), "", "TCP");
    var q := ServicePortName(NamespacedName("a", "b"), "c", "TCP");
    assert p.String() == "a/b.c" && q.String() == "a/b:c";
  }

  // ---------- strings.Trim(name, "FRONTEND.") ----------

  /** The characters of "FRONTEND.". */
  predicate InCutset(c: char) {
    c == 'F' || c == 'R' || c == 'O' || c == 'N' || c == 'T' || c == 'E' || c == 'D' || c == '.'
  }

  lemma CutsetIsPrefix(c: char)
    ensures InCutset(c) <==> c in FRONTEND_PREFIX
  {
  }

  function TrimLeft(s: string): string {
    if s != "" && InCutset(s[0]) then TrimLeft(s[1..]) else s
  }

  function TrimRight(s: string): string {
    if s != "" && InCutset(s[|s| - 1]) then TrimRight(s[..|s| - 1]) else s
  }

  function Trim(s: string): string {
    TrimRight(TrimLeft(s))
  }

  lemma {:induction false} TrimLeftDropsPrefix(p: string, s: string)
    requires forall i | 0 <= i < |p| :: InCutset(p[i])
    ensures TrimLeft(p + s) == TrimLeft(s)
  {
    if p == "" {
      assert p + s == s;
    } else {
      assert (p + s)[1..] == p[1..] + s;
      TrimLeftDropsPrefix(p[1..], s);
    }
  }

  lemma TrimLeftShrinks(s: string)
    ensures |TrimLeft(s)| <= |s|
  {
  }

  lemma TrimRightShrinks(s: string)
    ensures |TrimRight(s)| <= |s|
  {
  }

  predicate TrimStable(s: string) {
    s == "" || (!InCutset(s[0]) && !InCutset(s[|s| - 1]))
  }

  /** The service list recovers a key from its frontend name exactly when neither end of the key is in the cutset. */
  lemma DecodeExact(key: string)
    ensures Trim(FrontendName(key)) == key <==> TrimStable(key)
  {
    forall i | 0 <= i < |FRONTEND_PREFIX| ensures InCutset(FRONTEND_PREFIX[i]) {
      CutsetIsPrefix(FRONTEND_PREFIX[i]);
    }
    TrimLeftDropsPrefix(FRONTEND_PREFIX, key);
    TrimLeftShrinks(key);
    TrimRightShrinks(TrimLeft(key));
    if key != "" {
      if InCutset(key[0]) {
        TrimLeftShrinks(key[1..]);
      } else if InCutset(key[|key| - 1]) {
        TrimRightShrinks(key[..|key| - 1]);
      }
    }
  }

  /** Encoded names are lower case, so the service list decodes every frontend this proxier created to the key
      under which it is recorded as active. */
  lemma EncodedNameDecodes(spn: ServicePortName)
    requires IsLabelled(spn)
    ensures EncodedName(spn) != "" && TrimStable(EncodedName(spn))
    ensures Trim(FrontendName(EncodedName(spn))) == EncodedName(spn)
  {
    EncodedIsDotted(spn);
    DottedEnds(spn);
    DecodeExact(Dotted(spn));
  }

  lemma DottedEnds(spn: ServicePortName)
    requires IsLabelled(spn)
    ensures var d := Dotted(spn);
      d != "" && !InCutset(d[0]) && !InCutset(d[|d| - 1])
  {
    var d, last := Dotted(spn), if spn.port == "" then spn.nn.name else spn.port;
    assert d[0] == spn.nn.namespace[0] && d[|d| - 1] == last[|last| - 1];
    LabelOutsideCutset(spn.nn.namespace, 0);
    LabelOutsideCutset(last, |last| - 1);
  }

  lemma LabelOutsideCutset(s: string, i: nat)
    requires IsLabel(s) && i < |s|
    ensures !InCutset(s[i])
  {
  }
}
