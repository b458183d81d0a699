/**
 * `key=value&key=value` strings: the query string of a URL and the
 * application/x-www-form-urlencoded body of a token endpoint response.
 */
module FormData {
  import opened ByteStrings
  import opened UrlEncoding

  /** One entry of a PHP array of strings: key and value. */
  type Pair = (Bytes, Bytes)

  /** The `key=value` segment of one pair, written as given. */
  function Segment(p: Pair): Bytes
  {
    p.0 + "=" + p.1
  }

  /** Pairs written as `k=v&k=v`, keys and values as given. */
  function QueryString(ps: seq<Pair>): Bytes
  {
    Join(seq(|ps|, i requires 0 <= i < |ps| => Segment(ps[i])), '&')
  }

  /** Cuts a segment at its first `=`; a segment without `=` has an empty value. */
  function SplitSegment(seg: Bytes): (p: Pair)
    ensures '=' !in p.0
    ensures '=' !in seg ==> p == (seg, [])
  {
    var parts := Split(seg, '=');
    assert '=' !in seg ==> parts == [seg] by {
      if '=' !in seg { SplitWithoutSeparator(seg, '='); }
    }
    (parts[0], Join(parts[1..], '='))
  }

  /** The raw pairs of a `k=v&k=v` string, one per `&`-separated segment, not decoded. */
  function RawPairs(s: Bytes): (ps: seq<Pair>)
    ensures |ps| >= 1
  {
    var segs := Split(s, '&');
    seq(|segs|, i requires 0 <= i < |segs| => SplitSegment(segs[i]))
  }

  /** A pair that `QueryString` writes so that `RawPairs` can read it back. */
  predicate Delimitable(p: Pair) {
    '&' !in p.0 && '=' !in p.0 && '&' !in p.1
  }

  /** A segment splits back into its key and value when the key holds no `=`. */
  lemma SplitSegmentOfSegment(p: Pair)
    requires '=' !in p.0
    ensures SplitSegment(Segment(p)) == p
  {
    var seg := Segment(p);
    assert seg == p.0 + ['='] + p.1;
    SplitAfterPiece(p.0, p.1, '=');
    var parts := Split(seg, '=');
    var tail := Split(p.1, '=');
    assert parts[1..] == tail;
    assert Join(tail, '=') == p.1;
  }

  /** `RawPairs` reads back exactly the pairs `QueryString` wrote, in order. */
  lemma RawPairsOfQueryString(ps: seq<Pair>)
    requires |ps| >= 1
    requires forall i | 0 <= i < |ps| :: Delimitable(ps[i])
    ensures RawPairs(QueryString(ps)) == ps
  {
    var segs := seq(|ps|, i requires 0 <= i < |ps| => Segment(ps[i]));
    forall i | 0 <= i < |segs|
      ensures '&' !in segs[i]
    {
      assert segs[i] == ps[i].0 + ['='] + ps[i].1;
    }
    SplitOfJoin(segs, '&');
    forall i | 0 <= i < |ps|
      ensures SplitSegment(segs[i]) == ps[i]
    {
      SplitSegmentOfSegment(ps[i]);
    }
  }

  /** The pair with key and value percent-encoded. */
  function EncodePair(p: Pair): Pair
  {
    (UrlEncode(p.0), UrlEncode(p.1))
  }

  /** PHP `http_build_query`: each key and value percent-encoded, written `k=v&k=v`. */
  function FormEncode(ps: seq<Pair>): Bytes
  {
    QueryString(seq(|ps|, i requires 0 <= i < |ps| => EncodePair(ps[i])))
  }

  /** The decoded pairs of the segments, skipping segments whose key is empty. */
  function DecodePairs(raw: seq<Pair>): seq<Pair>
  {
    if raw == [] then []
    else
      (if raw[0].0 == [] then [] else [(UrlDecode(raw[0].0), UrlDecode(raw[0].1))])
      + DecodePairs(raw[1..])
  }

  /**
   * The pairs of a form-encoded body: split at `&`, each segment at its first `=`, key and
   * value percent-decoded; empty segments and segments with an empty key give nothing.
   */
  function ParseForm(body: Bytes): seq<Pair>
  {
    DecodePairs(RawPairs(body))
  }

  /** Percent-encoded keys and values hold no `&` or `=`, so every encoded pair is delimitable. */
  lemma EncodedPairDelimitable(p: Pair)
    ensures Delimitable(EncodePair(p))
  {
    UrlEncodeAlphabet(p.0);
    UrlEncodeAlphabet(p.1);
  }

  lemma {:induction false} DecodeEncodedPairs(ps: seq<Pair>)
    requires forall i | 0 <= i < |ps| :: ps[i].0 != []
    ensures DecodePairs(seq(|ps|, i requires 0 <= i < |ps| => EncodePair(ps[i]))) == ps
    decreases |ps|
  {
    var enc := seq(|ps|, i requires 0 <= i < |ps| => EncodePair(ps[i]));
    if ps != [] {
      assert enc[1..] == seq(|ps[1..]|, i requires 0 <= i < |ps[1..]| => EncodePair(ps[1..][i]));
      DecodeEncodedPairs(ps[1..]);
      UrlDecodeEncode(ps[0].0);
      UrlDecodeEncode(ps[0].1);
      assert [ps[0]] + ps[1..] == ps;
    }
  }

  /** Parsing a form-encoded body gives back the pairs it was built from, in order. */
  lemma ParseFormEncode(ps: seq<Pair>)
    requires forall i | 0 <= i < |ps| :: ps[i].0 != []
    ensures ParseForm(FormEncode(ps)) == ps
  {
    var enc := seq(|ps|, i requires 0 <= i < |ps| => EncodePair(ps[i]));
    if ps == [] {
      assert FormEncode(ps) == [];
      assert Split([], '&') == [[]];
    } else {
      forall i | 0 <= i < |enc|
        ensures Delimitable(enc[i])
      {
        EncodedPairDelimitable(ps[i]);
      }
      RawPairsOfQueryString(enc);
      DecodeEncodedPairs(ps);
    }
  }

  /** The PHP array the pairs build: a later entry overwrites an earlier one with the same key. */
  function ToMap(ps: seq<Pair>): map<Bytes, Bytes>
  {
    if ps == [] then map[] else ToMap(ps[..|ps| - 1])[ps[|ps| - 1].0 := ps[|ps| - 1].1]
  }

  lemma ToMapThree(ps: seq<Pair>)
    requires |ps| == 3
    ensures ToMap(ps) == map[ps[0].0 := ps[0].1][ps[1].0 := ps[1].1][ps[2].0 := ps[2].1]
  {
    assert ps[..2][..1] == ps[..1] && ps[..1][..0] == [];
    assert ToMap(ps[..1]) == map[ps[0].0 := ps[0].1];
    assert ToMap(ps[..2]) == ToMap(ps[..1])[ps[1].0 := ps[1].1];
  }

  lemma ToMapFive(ps: seq<Pair>)
    requires |ps| == 5
    ensures ToMap(ps) == map[ps[0].0 := ps[0].1][ps[1].0 := ps[1].1][ps[2].0 := ps[2].1]
                           [ps[3].0 := ps[3].1][ps[4].0 := ps[4].1]
  {
    assert ps[..4][..3] == ps[..3] && ps[..3][..2] == ps[..2] && ps[..2][..1] == ps[..1];
    assert ps[..1][..0] == [];
    assert ToMap(ps[..1]) == map[ps[0].0 := ps[0].1];
    assert ToMap(ps[..2]) == ToMap(ps[..1])[ps[1].0 := ps[1].1];
    assert ToMap(ps[..3]) == ToMap(ps[..2])[ps[2].0 := ps[2].1];
    assert ToMap(ps[..4]) == ToMap(ps[..3])[ps[3].0 := ps[3].1];
  }

  /** The array has exactly the keys of the pairs. */
  lemma {:induction false} ToMapKeys(ps: seq<Pair>, k: Bytes)
    ensures k in ToMap(ps) <==> exists i | 0 <= i < |ps| :: ps[i].0 == k
    decreases |ps|
  {
    if ps != [] {
      var init := ps[..|ps| - 1];
      ToMapKeys(init, k);
      if k in ToMap(init) {
        var i :| 0 <= i < |init| && init[i].0 == k;
        assert ps[i].0 == k;
      }
      if exists i | 0 <= i < |ps| :: ps[i].0 == k {
        var i :| 0 <= i < |ps| && ps[i].0 == k;
        if i < |init| {
          assert init[i].0 == k;
        }
      }
    }
  }

  /** An entry whose key does not occur later is what the array holds for that key. */
  lemma {:induction false} ToMapAt(ps: seq<Pair>, i: nat)
    requires i < |ps|
    requires forall j | i < j < |ps| :: ps[j].0 != ps[i].0
    ensures ps[i].0 in ToMap(ps) && ToMap(ps)[ps[i].0] == ps[i].1
    decreases |ps|
  {
    if i < |ps| - 1 {
      var init := ps[..|ps| - 1];
      assert init[i] == ps[i];
      ToMapAt(init, i);
    }
  }

  /** Every entry with key `k` given the value `v`, in place. */
  function Replace(ps: seq<Pair>, k: Bytes, v: Bytes): seq<Pair>
  {
    seq(|ps|, i requires 0 <= i < |ps| => if ps[i].0 == k then (k, v) else ps[i])
  }

  lemma {:induction false} ToMapReplace(ps: seq<Pair>, k: Bytes, v: Bytes)
    requires k in ToMap(ps)
    ensures ToMap(Replace(ps, k, v)) == ToMap(ps)[k := v]
    decreases |ps|
  {
    var n := |ps|;
    var init := ps[..n - 1];
    var last := ps[n - 1];
    var r := Replace(ps, k, v);
    var rinit := Replace(init, k, v);
    assert r[..n - 1] == rinit;
    assert ToMap(ps) == ToMap(init)[last.0 := last.1];
    assert ToMap(r) == ToMap(rinit)[r[n - 1].0 := r[n - 1].1];
    if k in ToMap(init) {
      ToMapReplace(init, k, v);
      if last.0 == k {
        assert ToMap(r) == ToMap(init)[k := v][k := v];
      } else {
        assert ToMap(r) == ToMap(init)[k := v][last.0 := last.1];
      }
    } else {
      ToMapKeys(init, k);
      assert rinit == init;
      assert last.0 == k;
    }
  }

  /**
   * PHP `$data[k] = v` on an array given as pairs: the entry for `k` takes the value `v`
   * where it stands, or is appended when `k` is new; the array then maps `k` to `v` and is
   * otherwise unchanged.
   */
  function Assign(ps: seq<Pair>, k: Bytes, v: Bytes): (r: seq<Pair>)
    ensures ToMap(r) == ToMap(ps)[k := v]
  {
    if k in ToMap(ps) then
      ToMapReplace(ps, k, v);
      Replace(ps, k, v)
    else
      var r := ps + [(k, v)];
      assert r[..|r| - 1] == ps;
      r
  }
}
