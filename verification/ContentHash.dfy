/** The payload whose SHA-256 is the content hash: model digest, weather digest and
    engine version joined by colons. */
module ContentHash {
  import opened Simulations

  function Payload(model: string, weather: string, version: string): string {
    model + ":" + weather + ":" + version
  }

  /** Position of the first colon, or the length when there is none. */
  function FirstColon(s: string): (k: nat)
    ensures k <= |s| && ':' !in s[..k] && (k < |s| ==> s[k] == ':')
  {
    if s == "" || s[0] == ':' then 0
    else
      var k := 1 + FirstColon(s[1..]);
      assert s[..k] == [s[0]] + s[1..][..k - 1];
      k
  }

  /** Reads a payload back by splitting at its first two colons. */
  function Parse(p: string): Option<(string, string, string)> {
    var i := FirstColon(p);
    if i == |p| then None
    else
      var rest := p[i + 1..];
      var j := FirstColon(rest);
      if j == |rest| then None else Some((p[..i], rest[..j], rest[j + 1..]))
  }

  lemma FirstColonAt(a: string, b: string)
    requires ':' !in a
    ensures FirstColon(a + ":" + b) == |a|
  {
    var s := a + ":" + b;
    var k := FirstColon(s);
    assert s[|a|] == ':';
    forall j | 0 <= j < k ensures s[j] != ':' {
      assert s[..k][j] == s[j];
    }
    assert k <= |a|;
    assert s[..|a|] == a;
    forall j | 0 <= j < |a| ensures s[j] != ':' {
      assert s[j] == a[j] && a[j] in a;
    }
  }

  /** Splitting at the first two colons recovers the three parts exactly when neither
      digest contains a colon, as no hexadecimal digest does. */
  lemma ParseIffColonFree(model: string, weather: string, version: string)
    ensures Parse(Payload(model, weather, version)) == Some((model, weather, version))
       <==> ':' !in model && ':' !in weather
  {
    var p := Payload(model, weather, version);
    var tail := weather + ":" + version;
    assert p == model + ":" + tail;
    if ':' !in model && ':' !in weather {
      FirstColonAt(model, tail);
      FirstColonAt(weather, version);
      assert p[..|model|] == model && p[|model| + 1..] == tail;
      assert tail[..|weather|] == weather && tail[|weather| + 1..] == version;
    }
  }

  /** Distinct inputs with colon-free digests never share a payload. */
  lemma PayloadInjective(m: string, w: string, v: string, m': string, w': string, v': string)
    requires ':' !in m && ':' !in w && ':' !in m' && ':' !in w'
    requires Payload(m, w, v) == Payload(m', w', v')
    ensures m == m' && w == w' && v == v'
  {
    ParseIffColonFree(m, w, v);
    ParseIffColonFree(m', w', v');
  }

  /** Under one version, a payload with colon-free digests has no second reading, not
      even one whose digests contain colons. */
  lemma PayloadSame(m: string, w: string, m': string, w': string, v: string)
    requires ':' !in m && ':' !in w
    ensures Payload(m, w, v) == Payload(m', w', v) <==> m == m' && w == w'
  {
    var p, p' := Payload(m, w, v), Payload(m', w', v);
    forall j | 0 <= j <= |m| + |w| ensures p[j] == ':' <==> j == |m| {
      if j < |m| {
        assert p[j] == m[j];
      } else if j > |m| {
        assert p[j] == w[j - |m| - 1];
      }
    }
    if p == p' {
      assert p'[|m'|] == ':' && |m'| == |m|;
      assert p[..|m|] == m && p'[..|m|] == m';
      assert p[|m| + 1..][..|w|] == w && p'[|m| + 1..][..|w|] == w';
    }
  }
}
