/** The value tree passed between scripts (fflib/server/script.h:19-28), and reading order. */
module Script {
  /** A null ScriptArgObj pointer is not a value here; the encoders treat it apart. */
  datatype Arg =
    | Null
    | Int(n: int)
    | Float(f: real)
    | Str(s: string)
    | List(l: seq<Arg>)
    | Dict(d: map<string, Arg>)
    | Func(id: nat)

  /** Every key once. */
  ghost predicate Listing<K(!new)>(keys: seq<K>, all: set<K>) {
    && (forall k :: k in keys <==> k in all)
    && (forall i, j :: 0 <= i < j < |keys| ==> keys[i] != keys[j])
  }

  lemma {:induction false} ListingLength<K(!new)>(keys: seq<K>, all: set<K>)
    requires Listing(keys, all)
    ensures |keys| == |all|
    decreases |keys|
  {
    if keys == [] {
      assert forall k :: k !in all;
      assert all == {};
    } else {
      var last := |keys| - 1;
      var rest := all - {keys[last]};
      forall k ensures k in keys[..last] <==> k in rest {
        if k in keys {
          var i :| 0 <= i < |keys| && keys[i] == k;
        }
      }
      ListingLength(keys[..last], rest);
      assert all == rest + {keys[last]};
    }
  }

  /** A C string ends at its first NUL. */
  function Cut(s: string): (r: string)
    ensures '\0' !in r && (r == s <==> '\0' !in s)
  {
    if s == "" || s[0] == '\0' then "" else [s[0]] + Cut(s[1..])
  }

  /** No key holds a NUL. */
  predicate NulFree(d: map<string, Arg>) {
    forall k :: k in d ==> '\0' !in k
  }

  /** The start of the text, up to its first NUL or its end. */
  lemma {:induction false} CutIsPrefix(s: string)
    ensures Cut(s) <= s && (|Cut(s)| == |s| || s[|Cut(s)|] == '\0')
  {
    if s != "" && s[0] != '\0' {
      CutIsPrefix(s[1..]);
      assert s == [s[0]] + s[1..];
    }
  }

  datatype TextEntry = TextEntry(text: string, value: Arg)

  /** A dict filled entry by entry: a later entry replaces an earlier one with the same text. */
  function FilledBy(es: seq<TextEntry>): map<string, Arg> {
    if es == [] then map[] else
    var last := es[|es| - 1];
    FilledBy(es[..|es| - 1])[last.text := last.value]
  }

  lemma FilledByMore(es: seq<TextEntry>, n: nat)
    requires 0 < n <= |es|
    ensures FilledBy(es[..n]) == FilledBy(es[..n - 1])[es[n - 1].text := es[n - 1].value]
  {
    assert es[..n][..n - 1] == es[..n - 1];
  }

  /** The entry at i is the last one with its text. */
  predicate LastWithText(es: seq<TextEntry>, i: int) {
    0 <= i < |es| && forall j :: i < j < |es| ==> es[j].text != es[i].text
  }

  /** Each text has the value of the last entry with it, and there is nothing else. */
  lemma {:induction false} FilledByLast(es: seq<TextEntry>, s: string, x: Arg)
    ensures s in FilledBy(es) && FilledBy(es)[s] == x <==> exists i :: LastWithText(es, i) && es[i] == TextEntry(s, x)
    decreases |es|
  {
    if es != [] {
      var n := |es| - 1;
      FilledByLast(es[..n], s, x);
      assert LastWithText(es, n);
      forall i | 0 <= i < n ensures LastWithText(es, i) <==> LastWithText(es[..n], i) && es[i].text != es[n].text {
      }
    }
  }

  lemma LastIsKept(es: seq<TextEntry>, i: int)
    requires LastWithText(es, i)
    ensures es[i].text in FilledBy(es) && FilledBy(es)[es[i].text] == es[i].value
  {
    FilledByLast(es, es[i].text, es[i].value);
  }
}
