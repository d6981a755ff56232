/** `tweakIngressHostname` (controllers/collector.go): writing the DNS name into chart values. */
module IngressValues {
  import opened Text

  const HOSTNAME := "ingress.hostname="
  const HOSTS := "ingress.hosts[0]="
  const HOSTS_HOST := "ingress.hosts[0].host="
  const SERVER_HOSTNAME := "server.ingress.hostname="
  const DOMAIN := "global.domain="

  const PREFIXES: seq<string> := [HOSTNAME, HOSTS, HOSTS_HOST, SERVER_HOSTNAME, DOMAIN]

  /** What one value becomes: the `key=` part stays, the host replaces what follows. */
  function TweakValue(value: string, host: string): string {
    var key := BeforeEquals(value) + "=";
    if '=' in value && key in PREFIXES then key + ToLower(host) else value
  }

  function Tweak(values: seq<string>, host: string): (r: seq<string>)
    ensures |r| == |values|
  {
    seq(|values|, i requires 0 <= i < |values| => TweakValue(values[i], host))
  }

  /** Each of the five prefixes ends in its only `=`. */
  lemma OnlyEqualsIsLast(prefix: string) returns (key: string)
    requires prefix in PREFIXES
    ensures prefix == key + "=" && '=' !in key
  {
    key := prefix[..|prefix| - 1];
  }

  /** A prefix with a single `=` at its end is matched by the text before the first `=`. */
  lemma KeyMatches(value: string, key: string)
    requires '=' !in key
    ensures HasPrefix(value, key + "=") <==> '=' in value && BeforeEquals(value) == key
  {
    hide BeforeEquals, AfterEquals;
    if HasPrefix(value, key + "=") {
      var rest := value[|key| + 1..];
      assert value == key + "=" + rest;
      EqualsIsUnique(key, rest);
      assert value[|key|] == '=';
    }
  }

  lemma PrefixIsKey(value: string, prefix: string)
    requires prefix in PREFIXES
    ensures HasPrefix(value, prefix) <==> '=' in value && BeforeEquals(value) + "=" == prefix
  {
    hide PREFIXES, HasPrefix, BeforeEquals;
    var key := OnlyEqualsIsLast(prefix);
    KeyMatches(value, key);
    if BeforeEquals(value) + "=" == prefix {
      assert (BeforeEquals(value) + "=")[..|BeforeEquals(value)|] == BeforeEquals(value);
      assert prefix[..|key|] == key;
    }
  }

  /** The cases of the switch exclude each other, so their order cannot matter. */
  lemma PrefixesAreExclusive(value: string, p: string, q: string)
    requires p in PREFIXES && q in PREFIXES && HasPrefix(value, p) && HasPrefix(value, q)
    ensures p == q
  {
    PrefixIsKey(value, p);
    PrefixIsKey(value, q);
  }

  method TweakIngressHostname(existingStrings: seq<string>, dnsName: string) returns (updatedStrings: seq<string>)
    ensures updatedStrings == Tweak(existingStrings, dnsName)
  {
    updatedStrings := [];
    var lowercaseDnsName := ToLower(dnsName);
    for i := 0 to |existingStrings|
      invariant updatedStrings == Tweak(existingStrings, dnsName)[..i]
    {
      var str := existingStrings[i];
      forall p | p in PREFIXES
        ensures HasPrefix(str, p) <==> '=' in str && BeforeEquals(str) + "=" == p
      {
        PrefixIsKey(str, p);
      }
      if HasPrefix(str, HOSTNAME) {
        str := HOSTNAME + lowercaseDnsName;
      } else if HasPrefix(str, HOSTS) {
        str := HOSTS + lowercaseDnsName;
      } else if HasPrefix(str, HOSTS_HOST) {
        str := HOSTS_HOST + lowercaseDnsName;
      } else if HasPrefix(str, SERVER_HOSTNAME) {
        str := SERVER_HOSTNAME + lowercaseDnsName;
      } else if HasPrefix(str, DOMAIN) {
        str := DOMAIN + lowercaseDnsName;
      }
      updatedStrings := updatedStrings + [str];
    }
  }

  /** Everything up to the first `=` survives, and values without one of the keys are untouched. */
  lemma TweakKeepsKeys(values: seq<string>, host: string, i: nat)
    requires i < |values|
    ensures BeforeEquals(Tweak(values, host)[i]) == BeforeEquals(values[i])
    ensures (forall p | p in PREFIXES :: !HasPrefix(values[i], p)) ==> Tweak(values, host)[i] == values[i]
    ensures forall p | p in PREFIXES && HasPrefix(values[i], p) :: Tweak(values, host)[i] == p + ToLower(host)
  {
    var value := values[i];
    EqualsIsUnique(BeforeEquals(value), ToLower(host));
    forall p | p in PREFIXES
      ensures HasPrefix(value, p) <==> '=' in value && BeforeEquals(value) + "=" == p
    {
      PrefixIsKey(value, p);
    }
    if '=' in value && BeforeEquals(value) + "=" in PREFIXES {
      assert HasPrefix(value, BeforeEquals(value) + "=");
    }
  }

  /** The keys under which a chart expects its host name. */
  predicate IsHostKey(key: string) {
    || key == "ingress.hostname"
    || key == "ingress.hosts[0]"
    || key == "ingress.hosts[0].host"
    || key == "server.ingress.hostname"
    || key == "global.domain"
  }

  /** `tweaked` is the `value` of a host key with the name in lower case behind the `=`, or the `value` of another. */
  ghost predicate Repointed(value: string, tweaked: string, host: string) {
    && (forall key: string | IsHostKey(key) && key + "=" <= value ::
          key + "=" <= tweaked && Lowered(host, tweaked[|key| + 1..]))
    && ((forall key: string | IsHostKey(key) :: !(key + "=" <= value)) ==> tweaked == value)
  }

  lemma HostKeys(key: string)
    ensures IsHostKey(key) <==> key + "=" in PREFIXES
  {
    assert "ingress.hostname" + "=" == HOSTNAME && "ingress.hosts[0]" + "=" == HOSTS;
    assert "ingress.hosts[0].host" + "=" == HOSTS_HOST;
    assert "server.ingress.hostname" + "=" == SERVER_HOSTNAME && "global.domain" + "=" == DOMAIN;
    forall other: string | key + "=" == other + "="
      ensures key == other
    {
      assert (key + "=")[..|key|] == key && (other + "=")[..|other|] == other;
    }
  }

  lemma HostKeyIsTweaked(values: seq<string>, host: string, i: nat, key: string)
    requires i < |values| && IsHostKey(key) && key + "=" <= values[i]
    ensures key + "=" <= Tweak(values, host)[i] && Tweak(values, host)[i][|key| + 1..] == ToLower(host)
  {
    hide PREFIXES, IsHostKey, Tweak, ToLower;
    HostKeys(key);
    TweakKeepsKeys(values, host, i);
    assert HasPrefix(values[i], key + "=");
    assert (key + "=" + ToLower(host))[|key| + 1..] == ToLower(host);
  }

  lemma OtherIsKept(values: seq<string>, host: string, i: nat)
    requires i < |values| && forall key: string | IsHostKey(key) :: !(key + "=" <= values[i])
    ensures Tweak(values, host)[i] == values[i]
  {
    hide PREFIXES, IsHostKey, Tweak, ToLower;
    TweakKeepsKeys(values, host, i);
    forall p | p in PREFIXES
      ensures !HasPrefix(values[i], p)
    {
      var key := OnlyEqualsIsLast(p);
      HostKeys(key);
    }
  }

  /** Host keys get the name, in lower case whatever its case was, and all other values stay. */
  lemma TweakRepoints(values: seq<string>, host: string, i: nat)
    requires i < |values|
    ensures Repointed(values[i], Tweak(values, host)[i], host)
  {
    hide IsHostKey, Lowered, Tweak, ToLower;
    ToLowerLowers(host);
    forall key | IsHostKey(key) && key + "=" <= values[i]
      ensures key + "=" <= Tweak(values, host)[i] && Lowered(host, Tweak(values, host)[i][|key| + 1..])
    {
      HostKeyIsTweaked(values, host, i, key);
    }
    if forall key: string | IsHostKey(key) :: !(key + "=" <= values[i]) {
      OtherIsKept(values, host, i);
    }
  }

  /** A second call absorbs the first; with the same name the call is idempotent. */
  lemma TweakAbsorbs(values: seq<string>, first: string, second: string)
    ensures Tweak(Tweak(values, first), second) == Tweak(values, second)
    ensures Tweak(Tweak(values, first), first) == Tweak(values, first)
  {
    forall i | 0 <= i < |values|
      ensures Tweak(Tweak(values, first), second)[i] == Tweak(values, second)[i]
      ensures Tweak(Tweak(values, first), first)[i] == Tweak(values, first)[i]
    {
      TweakKeepsKeys(values, first, i);
    }
  }
}
