/**
 * The public-key cache (server/server.js:14, 230-235, 248-250): a process-wide holder whose
 * `keys` member is replaced wholesale by each refresh, and `getPem`, which picks the first
 * cached key with the requested key id and converts it with `jwkToPem`.
 */
module Keys {
  import opened Wrappers
  import opened CacheControl

  /** Key material in PEM form, as `jwkToPem` produces it. */
  type Pem = string

  /**
   * One JSON Web Key of the issuer's key set: its `kid` (None when the member is absent)
   * and its other members (`kty`, `alg`, `use`, `n`, `e`, ...) as text.
   */
  datatype KeyEntry = KeyEntry(kid: Option<string>, members: map<string, string>)

  /** `keys.filter(key => key.kid === kid)`: the entries with that key id, in cache order. */
  function FilterKid(keys: seq<KeyEntry>, kid: Option<string>): (matching: seq<KeyEntry>)
    ensures |matching| <= |keys|
    ensures forall e :: e in matching ==> e in keys && e.kid == kid
    ensures forall i :: 0 <= i < |keys| && keys[i].kid == kid ==> keys[i] in matching
  {
    if |keys| == 0 then []
    else (if keys[0].kid == kid then [keys[0]] else []) + FilterKid(keys[1..], kid)
  }

  /**
   * Element `[0]` of the filtered keys: `None` stands for `undefined`. A found entry is a
   * cached entry with that key id; nothing is found exactly when no entry has it.
   */
  function FindKey(keys: seq<KeyEntry>, kid: Option<string>): (r: Option<KeyEntry>)
    ensures r.Some? ==> r.value in keys && r.value.kid == kid
    ensures r.None? <==> forall i :: 0 <= i < |keys| ==> keys[i].kid != kid
  {
    var matching := FilterKid(keys, kid);
    if |matching| == 0 then None
    else
      assert matching[0] in matching;
      Some(matching[0])
  }

  /** Index `i` holds the first entry of `keys` with key id `kid`. */
  ghost predicate IsFirstMatch(keys: seq<KeyEntry>, kid: Option<string>, i: int)
  {
    0 <= i < |keys| && keys[i].kid == kid && forall j :: 0 <= j < i ==> keys[j].kid != kid
  }

  /** The lookup finds exactly the first entry whose key id matches. */
  lemma {:induction false} FindKeyIsFirst(keys: seq<KeyEntry>, kid: Option<string>, i: int)
    requires IsFirstMatch(keys, kid, i)
    ensures FindKey(keys, kid) == Some(keys[i])
    decreases i
  {
    if i > 0 {
      assert IsFirstMatch(keys[1..], kid, i - 1);
      FindKeyIsFirst(keys[1..], kid, i - 1);
    }
  }

  /** Whenever some entry has the key id, a first such entry exists. */
  lemma {:induction false} FirstMatchExists(keys: seq<KeyEntry>, kid: Option<string>, k: int)
    requires 0 <= k < |keys| && keys[k].kid == kid
    ensures exists i :: IsFirstMatch(keys, kid, i)
    decreases k
  {
    if keys[0].kid == kid {
      assert IsFirstMatch(keys, kid, 0);
    } else {
      FirstMatchExists(keys[1..], kid, k - 1);
      var i :| IsFirstMatch(keys[1..], kid, i);
      assert IsFirstMatch(keys, kid, i + 1);
    }
  }

  /** A lookup either fails because no entry has the key id, or yields the first entry that does. */
  lemma FindKeyResult(keys: seq<KeyEntry>, kid: Option<string>)
    ensures FindKey(keys, kid).None? <==> forall i :: 0 <= i < |keys| ==> keys[i].kid != kid
    ensures FindKey(keys, kid).Some? ==> exists i :: IsFirstMatch(keys, kid, i) && FindKey(keys, kid) == Some(keys[i])
  {
    if k :| 0 <= k < |keys| && keys[k].kid == kid {
      FirstMatchExists(keys, kid, k);
      var i :| IsFirstMatch(keys, kid, i);
      FindKeyIsFirst(keys, kid, i);
    }
  }

  /** Why `getPem` throws. */
  datatype KeyError =
    | UnknownKey          // `keys` is undefined or no entry has the key id: `jwkToPem(undefined)` throws
    | KeyConversionError  // `jwkToPem` rejects the entry's material

  /** The outcome of `JSON.parse(body)` on the key-set response. */
  datatype KeySetBody =
    | Unparsable                           // `JSON.parse` throws, uncaught
    | Parsed(keys: Option<seq<KeyEntry>>)  // the value of its `keys` member, None when absent

  /** `keyCache`: the one mutable holder of the issuer's current key set. */
  class KeyCache {
    /** `keyCache.keys`: undefined (None) until a refresh stores a key set. */
    var keys: Option<seq<KeyEntry>>

    /** `var keyCache = {}` at process start. */
    constructor ()
      ensures keys == None
    {
      keys := None;
    }

    /** `keyCache.keys.filter(...)[0]`: the FIRST cached entry with key id `kid`. */
    function Lookup(kid: Option<string>): (r: Option<KeyEntry>)
      reads this
      ensures r.Some? ==> keys.Some? && exists i :: IsFirstMatch(keys.value, kid, i) && r.value == keys.value[i]
      ensures r.None? ==> keys.None? || forall i :: 0 <= i < |keys.value| ==> keys.value[i].kid != kid
    {
      match keys
      case None => None // `undefined.filter` throws
      case Some(ks) =>
        FindKeyResult(ks, kid);
        FindKey(ks, kid)
    }

    /**
     * `getPem(kid)`, with `toPem` standing for `jwkToPem`: the PEM form of the first cached
     * entry with key id `kid`. With no key set or no such entry, `jwkToPem(undefined)` or
     * the filter throws (`UnknownKey`); an entry `jwkToPem` rejects gives `KeyConversionError`.
     */
    function GetPem(kid: Option<string>, toPem: KeyEntry -> Option<Pem>): (r: Result<Pem, KeyError>)
      reads this
      ensures r == Failure(UnknownKey) <==>
        keys.None? || forall i :: 0 <= i < |keys.value| ==> keys.value[i].kid != kid
      ensures r == Failure(KeyConversionError) <==>
        keys.Some? && exists i :: IsFirstMatch(keys.value, kid, i) && toPem(keys.value[i]).None?
      ensures r.Success? ==>
        keys.Some? && exists i :: IsFirstMatch(keys.value, kid, i) && toPem(keys.value[i]) == Some(r.value)
    {
      match Lookup(kid)
      case None => Failure(UnknownKey)
      case Some(entry) =>
        match toPem(entry)
        case None => Failure(KeyConversionError)
        case Some(pem) => Success(pem)
    }

    /** `keyCache.keys = ...`: the whole set is swapped in one assignment. */
    method Replace(newKeys: Option<seq<KeyEntry>>)
      modifies this
      ensures keys == newKeys
    {
      keys := newKeys;
    }

    /**
     * The key-set response callback: parse the body and store its `keys` member, then
     * compute the delay of the next refresh. A body that does not parse throws out of the
     * callback before anything is stored or scheduled.
     */
    method Refresh(body: KeySetBody, cacheControl: Option<string>) returns (next: Schedule)
      modifies this
      ensures body.Unparsable? ==> keys == old(keys) && next == Thrown
      ensures body.Parsed? ==> keys == body.keys && next == RefreshDelay(cacheControl)
    {
      match body
      case Unparsable =>
        next := Thrown;
      case Parsed(parsed) =>
        Replace(parsed);
        next := RefreshDelay(cacheControl);
    }
  }

  /**
   * After a refresh stores a key set, a lookup succeeds for every key id the set contains
   * and fails for every key id it does not, whatever was cached before.
   */
  lemma RefreshedLookup(cache: KeyCache, ks: seq<KeyEntry>, kid: Option<string>)
    requires cache.keys == Some(ks)
    ensures cache.Lookup(kid).Some? <==> exists i :: 0 <= i < |ks| && ks[i].kid == kid
  {
    FindKeyResult(ks, kid);
  }
}
