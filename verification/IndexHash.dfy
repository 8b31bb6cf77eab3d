/** The content hash that decides whether a chunk is embedded again. SHA-1 is
    taken to be collision-free: a digest is its payload, wrapped. */
module IndexHash {

  datatype Provider = Local | Gms

  /** The dimension count is always 1024: the settings refuse any other. */
  datatype Profile = Profile(provider: Provider, model: string)

  const LOCAL_EMBED_MODEL := "BAAI/bge-m3"
  const LEGACY := Profile(Local, LOCAL_EMBED_MODEL)

  datatype Digest = Sha1(payload: string)

  function ProviderName(p: Provider): string {
    match p
    case Local => "local"
    case Gms => "gms"
  }

  function Fingerprint(p: Profile): string {
    ProviderName(p.provider) + ":" + p.model + ":1024"
  }

  predicate UsesLegacyLocalEmbedding(p: Profile) {
    p.provider == Local && p.model == LOCAL_EMBED_MODEL
  }

  function Payload(p: Profile, text: string): string {
    if UsesLegacyLocalEmbedding(p) then text else Fingerprint(p) + ['\0'] + text
  }

  function ContentHash(p: Profile, text: string): Digest {
    Sha1(Payload(p, text))
  }

  /** A model name comes from an environment variable: not empty, no NUL. */
  predicate ValidProfile(p: Profile) {
    p.model != "" && '\0' !in p.model
  }

  const CONTEXT_PREFIX := "[회사]"

  /** Every chunk text starts with the posting's context. */
  predicate Prefixed(text: string) {
    CONTEXT_PREFIX <= text
  }

  lemma FirstNul(a: string, b: string)
    requires '\0' !in a
    ensures (a + ['\0'] + b)[|a|] == '\0'
    ensures forall i :: 0 <= i < |a| ==> (a + ['\0'] + b)[i] != '\0'
  {
  }

  /** The first NUL of a payload is where the fingerprint ends. */
  lemma SplitAtNul(a: string, b: string, c: string, d: string)
    requires '\0' !in a && '\0' !in c
    requires a + ['\0'] + b == c + ['\0'] + d
    ensures a == c && b == d
  {
    FirstNul(a, b);
    FirstNul(c, d);
    var x := a + ['\0'] + b;
    assert |a| == |c|;
    assert a == x[..|a|] && c == x[..|a|];
    assert b == x[|a| + 1..] && d == x[|a| + 1..];
  }

  lemma FingerprintInjective(p: Profile, q: Profile)
    requires Fingerprint(p) == Fingerprint(q)
    ensures p == q
  {
    assert Fingerprint(p)[0] == ProviderName(p.provider)[0];
    assert Fingerprint(q)[0] == ProviderName(q.provider)[0];
    var head := |ProviderName(p.provider) + ":"|;
    assert p.model == Fingerprint(p)[head..|Fingerprint(p)| - 5];
    assert q.model == Fingerprint(q)[head..|Fingerprint(q)| - 5];
  }

  lemma FingerprintHasNoNul(p: Profile)
    requires ValidProfile(p)
    ensures '\0' !in Fingerprint(p)
  {
  }

  /** Exactly when two (profile, text) pairs share a content hash: when they are
      the same pair, or when one is the legacy profile over a text that spells
      out the other's fingerprint, a NUL and its text. */
  lemma SharedHashExactly(p: Profile, t: string, q: Profile, u: string)
    requires ValidProfile(p) && ValidProfile(q)
    ensures ContentHash(p, t) == ContentHash(q, u) <==>
      || (p == q && t == u)
      || (p == LEGACY && q != LEGACY && t == Fingerprint(q) + ['\0'] + u)
      || (q == LEGACY && p != LEGACY && u == Fingerprint(p) + ['\0'] + t)
  {
    FingerprintHasNoNul(p);
    FingerprintHasNoNul(q);
    assert UsesLegacyLocalEmbedding(p) <==> p == LEGACY;
    assert UsesLegacyLocalEmbedding(q) <==> q == LEGACY;
    if ContentHash(p, t) == ContentHash(q, u) && p != LEGACY && q != LEGACY {
      SplitAtNul(Fingerprint(p), t, Fingerprint(q), u);
      FingerprintInjective(p, q);
    }
  }

  /** On chunk texts, which all carry the context prefix, the hash separates
      profiles and texts: a changed profile changes every hash. */
  lemma HashSeparates(p: Profile, t: string, q: Profile, u: string)
    requires ValidProfile(p) && ValidProfile(q) && Prefixed(t) && Prefixed(u)
    requires ContentHash(p, t) == ContentHash(q, u)
    ensures p == q && t == u
  {
    SharedHashExactly(p, t, q, u);
    assert t[0] == '[' && u[0] == '[';
    assert Fingerprint(p)[0] == ProviderName(p.provider)[0];
    assert Fingerprint(q)[0] == ProviderName(q.provider)[0];
  }
}
