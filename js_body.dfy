/** How the Next.js routes read a parsed JSON body: the `key in body` loop
    over a list of required keys, and `v ?? fallback`. */
module JsBody {
  import opened Domain

  /** `for (const key of required) if (!(key in body)) return ...`: every
      required key is present (a key holding null counts as present). */
  method HasAllKeys(body: Body, required: seq<string>) returns (present: bool)
    ensures present <==> forall i :: 0 <= i < |required| ==> required[i] in body
  {
    for i := 0 to |required|
      invariant forall j :: 0 <= j < i ==> required[j] in body
    {
      if required[i] !in body {
        return false;
      }
    }
    return true;
  }

  /** The keys of a list as a set. */
  function KeySet(required: seq<string>): (s: set<string>)
    ensures forall k :: k in s <==> exists i :: 0 <= i < |required| && required[i] == k
  {
    set i | 0 <= i < |required| :: required[i]
  }

  /** So the loop answers the subset test `main.py` makes. */
  lemma AllKeysIsSubset(body: Body, required: seq<string>)
    ensures (forall i :: 0 <= i < |required| ==> required[i] in body) <==> KeySet(required) <= body.Keys
  {
    if KeySet(required) <= body.Keys {
      forall i | 0 <= i < |required| ensures required[i] in body {
        assert required[i] in KeySet(required);
      }
    }
  }

  /** `v ?? fallback` for a string field: null and absent give the fallback. */
  function OrElse(v: Val, fallback: string): (r: string)
    requires !v.VList?
    ensures v.VStr? ==> r == v.s
    ensures v.VNull? ==> r == fallback
  {
    if v.VStr? then v.s else fallback
  }
}
