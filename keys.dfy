/** The key scheme the pages share in one store: profile metadata, the current-profile
    key, per-profile squads `wc2026_<profile>_<country>`, and the single-profile
    scheme `wc2026_squad_<country>` that the squad and overview pages still use. */
module Keys {
  import opened Text

  const ProfilesKey := "wc2026_profiles"
  const CurrentKey := "wc2026_current_profile"
  const DefaultId := "default"
  const DefaultName := "Mi Mundial"
  const LegacyPrefix := "wc2026_squad_"

  predicate NoUnderscore(s: string) {
    '_' !in s
  }

  function NamespacePrefix(id: string): string {
    "wc2026_" + id + "_"
  }

  function SquadKey(id: string, country: string): string {
    NamespacePrefix(id) + country
  }

  function LegacyKey(country: string): string {
    LegacyPrefix + country
  }

  lemma NamespaceShape(id: string, k: string)
    requires HasPrefix(k, NamespacePrefix(id))
    ensures |k| >= 8 + |id|
    ensures k[7..7 + |id|] == id && k[7 + |id|] == '_'
  {
    assert k[..|NamespacePrefix(id)|] == NamespacePrefix(id);
    assert k[7..7 + |id|] == NamespacePrefix(id)[7..7 + |id|];
  }

  /** With an underscore-free id, the id is the text between `wc2026_` and the next
      `_` of the key. */
  lemma NamespaceId(id: string, k: string)
    requires NoUnderscore(id) && HasPrefix(k, NamespacePrefix(id))
    ensures IndexOf(k[7..], '_') == |id|
  {
    var rest := k[|NamespacePrefix(id)|..];
    assert k[..|NamespacePrefix(id)|] == NamespacePrefix(id);
    assert k[7..] == id + "_" + rest;
    IndexOfFirst(id, '_', rest);
  }

  /** Two underscore-free ids cannot both own the same key. */
  lemma NamespacesDisjoint(a: string, b: string, k: string)
    requires NoUnderscore(a) && NoUnderscore(b)
    ensures HasPrefix(k, NamespacePrefix(a)) && HasPrefix(k, NamespacePrefix(b)) ==> a == b
  {
    if HasPrefix(k, NamespacePrefix(a)) && HasPrefix(k, NamespacePrefix(b)) {
      NamespaceId(a, k);
      NamespaceId(b, k);
      NamespaceShape(a, k);
      NamespaceShape(b, k);
    }
  }

  lemma SquadKeyHasNamespace(id: string, country: string)
    ensures HasPrefix(SquadKey(id, country), NamespacePrefix(id))
    ensures SquadKey(id, country)[|NamespacePrefix(id)|..] == country
  {
    var k := SquadKey(id, country);
    assert k[..|NamespacePrefix(id)|] == NamespacePrefix(id);
  }

  /** Key isolation: with underscore-free profile ids the squad key determines both
      the profile and the country. */
  lemma SquadKeyInjective(a: string, c: string, b: string, d: string)
    requires NoUnderscore(a) && NoUnderscore(b)
    ensures SquadKey(a, c) == SquadKey(b, d) <==> a == b && c == d
  {
    SquadKeyHasNamespace(a, c);
    SquadKeyHasNamespace(b, d);
    NamespacesDisjoint(a, b, SquadKey(a, c));
  }

  /** A profile's prefix scan matches a squad key exactly when the key is that
      profile's. */
  lemma ScanMatchesOwnKeysOnly(id: string, other: string, country: string)
    requires NoUnderscore(id) && NoUnderscore(other)
    ensures HasPrefix(SquadKey(other, country), NamespacePrefix(id)) <==> other == id
  {
    SquadKeyHasNamespace(other, country);
    NamespacesDisjoint(id, other, SquadKey(other, country));
  }

  /** No prefix scan ever matches the metadata key, whatever the id. */
  lemma ProfilesKeyOutsideNamespaces(id: string)
    ensures !HasPrefix(ProfilesKey, NamespacePrefix(id))
  {
    assert forall i :: 7 <= i < |ProfilesKey| ==> ProfilesKey[i] != '_';
    if |NamespacePrefix(id)| <= |ProfilesKey| {
      assert NamespacePrefix(id)[7 + |id|] == '_';
    }
  }

  /** The current-profile key lies in exactly one namespace, that of a profile named
      `current`. */
  lemma CurrentKeyNamespace(id: string)
    ensures HasPrefix(CurrentKey, NamespacePrefix(id)) <==> id == "current"
  {
    assert forall i :: 7 <= i < |CurrentKey| && CurrentKey[i] == '_' ==> i == 14;
    assert CurrentKey[7..14] == "current";
    if |NamespacePrefix(id)| <= |CurrentKey| {
      assert NamespacePrefix(id)[7 + |id|] == '_';
      assert NamespacePrefix(id)[7..7 + |id|] == id;
    }
  }

  /** The single-profile scheme is the namespace of a profile called `squad`. */
  lemma LegacyIsSquadNamespace(country: string)
    ensures LegacyKey(country) == SquadKey("squad", country)
    ensures LegacyPrefix == NamespacePrefix("squad")
  {
  }

  /** The legacy namespace and the default profile's namespace share no key. */
  lemma LegacyOutsideDefault(k: string)
    ensures !(HasPrefix(k, LegacyPrefix) && HasPrefix(k, NamespacePrefix(DefaultId)))
  {
    NamespacesDisjoint("squad", DefaultId, k);
  }

  /** Replacing one namespace prefix by another is injective on the keys that carry
      the first. */
  lemma RetargetInjective(p: string, q: string)
    ensures forall k1, k2 :: HasPrefix(k1, p) && HasPrefix(k2, p) && q + k1[|p|..] == q + k2[|p|..] ==> k1 == k2
  {
    forall k1, k2 | HasPrefix(k1, p) && HasPrefix(k2, p) && q + k1[|p|..] == q + k2[|p|..]
      ensures k1 == k2
    {
      assert k1[|p|..] == (q + k1[|p|..])[|q|..];
      PrefixSplit(k1, p);
      PrefixSplit(k2, p);
    }
  }
}
