/** What the policy reports, and the text functions and the order of keys its rules share. */
module PolicyFindings {
  import Ordering
  import Paths

  datatype RuleId =
    | UnreviewedField | GoTemplate | EnvExpansion | Mgmt | Prefix | Settings | EnvFiles | HostKind | ImageNotAllowed
    | Privileged | Privileges | HostNamespace | KernelSettings | Runtime | HostPorts | Volumes | StaticMgmtAddress
    | HostExec | RemoteFile | ForeignFile | HostLink

  datatype Impact = Deploy | Shell | Unreviewed

  /** A fixed text, or one that quotes a value of the topology. */
  datatype Message = Text(text: string) | Quoting(text: string, value: string)

  datatype Finding = Finding(ruleId: RuleId, impact: Impact, path: string, message: Message)

  // ---------------------------------------------------------------------------------------------
  // Text
  // ---------------------------------------------------------------------------------------------

  predicate IsSpace(c: char) {
    c == ' ' || '\t' <= c <= '\r'
  }

  function TrimLeft(text: string): string {
    if text != "" && IsSpace(text[0]) then TrimLeft(text[1..]) else text
  }

  function TrimRight(text: string): string {
    if text != "" && IsSpace(text[|text| - 1]) then TrimRight(text[..|text| - 1]) else text
  }

  /** strings.TrimSpace for ASCII */
  function TrimSpace(text: string): string {
    TrimRight(TrimLeft(text))
  }

  predicate Contains(text: string, part: string) {
    part <= text || (text != "" && Contains(text[1..], part))
  }

  /** What comes before the first occurrence of a character, or all of the text. */
  function Before(text: string, c: char): string {
    if text == "" || text[0] == c then "" else [text[0]] + Before(text[1..], c)
  }

  function Decimal(n: nat): string {
    if n < 10 then [n as char + '0'] else Decimal(n / 10) + [(n % 10) as char + '0']
  }

  function Indexed(path: string, i: nat): string {
    path + "[" + Decimal(i) + "]"
  }

  // ---------------------------------------------------------------------------------------------
  // Sorted keys
  // ---------------------------------------------------------------------------------------------

  ghost function Enumerate(keys: set<string>): (s: seq<string>)
    ensures multiset(s) == multiset(keys)
  {
    if keys == {} then []
    else
      var key :| key in keys;
      assert keys == keys - {key} + {key};
      [key] + Enumerate(keys - {key})
  }

  /** The keys of a map in byte order. */
  ghost function InOrder(keys: set<string>): (s: seq<string>)
    ensures multiset(s) == multiset(keys)
    ensures forall key | key in s :: key in keys
  {
    var s := Ordering.Sorted(Enumerate(keys));
    assert forall key | key in s :: key in multiset(s);
    s
  }

  /** In whatever order a map yields its keys, they end up in the same order. */
  method SortedKeys<V>(mapping: map<string, V>) returns (keys: seq<string>)
    ensures keys == InOrder(mapping.Keys)
  {
    var rest := mapping.Keys;
    keys := [];
    while rest != {}
      invariant rest <= mapping.Keys
      invariant multiset(keys) + multiset(rest) == multiset(mapping.Keys)
      decreases |rest|
    {
      var key :| key in rest;
      assert multiset(rest) == multiset(rest - {key}) + multiset{key};
      rest := rest - {key};
      keys := keys + [key];
    }
    Ordering.SortedIsCanonical(keys, Enumerate(mapping.Keys));
    keys := Ordering.Sorted(keys);
  }

  lemma Appended<T>(a: seq<T>, b: seq<T>, c: seq<T>)
    ensures a + b + c == a + (b + c)
  {
  }

  lemma NothingFromEither<T>(a: seq<T>, b: seq<T>)
    ensures a + b == [] <==> a == [] && b == []
  {
  }

  lemma AllInOrder(keys: set<string>)
    ensures forall key :: key in InOrder(keys) <==> key in keys
  {
    forall key ensures key in InOrder(keys) <==> key in keys {
      assert key in InOrder(keys) <==> key in multiset(InOrder(keys));
    }
  }
}
