/** The query string of the URL, as the `URLSearchParams` object the components read and write it
    through: an ordered list of name/value pairs in which a name may repeat. Percent-encoding is not
    modelled; names and values are taken as written. */
module UrlParams {
  import opened Wrappers
  import opened Strings
  import opened Seqs

  type Params = seq<(string, string)>

  /** `params.get(name)`: the value of the first pair with that name. */
  function Get(p: Params, name: string): (r: Option<string>)
    ensures r.None? <==> forall i :: 0 <= i < |p| ==> p[i].0 != name
    ensures r.Some? ==> exists i :: 0 <= i < |p| && p[i] == (name, r.value)
    decreases |p|
  {
    if p == [] then None
    else if p[0].0 == name then Some(p[0].1)
    else
      var r := Get(p[1..], name);
      assert forall i :: 0 <= i < |p| - 1 ==> p[1..][i] == p[i + 1];
      r
  }

  /** `params.delete(name)`: every pair with that name removed, the others kept in order. */
  function Delete(p: Params, name: string): (r: Params)
    ensures SubseqOf(r, p)
    ensures forall x :: x in r <==> x in p && x.0 != name
    decreases |p|
  {
    if p == [] then []
    else
      var rest := Delete(p[1..], name);
      assert forall x :: x in p <==> x == p[0] || x in p[1..];
      if p[0].0 == name then rest else [p[0]] + rest
  }

  /** `params.set(name, value)`: the first pair with that name takes the value and the later ones are
      removed; without such a pair, the pair is appended. */
  function Set(p: Params, name: string, value: string): (r: Params)
    ensures forall x :: x in r ==> x in p || x == (name, value)
    decreases |p|
  {
    if p == [] then [(name, value)]
    else if p[0].0 == name then
      assert forall x :: x in p[1..] ==> x in p;
      [(name, value)] + Delete(p[1..], name)
    else
      assert forall x :: x in p[1..] ==> x in p;
      [p[0]] + Set(p[1..], name, value)
  }

  /** Reading a name back after setting it gives the value set. */
  lemma {:induction false} GetSet(p: Params, name: string, value: string)
    ensures Get(Set(p, name, value), name) == Some(value)
    decreases |p|
  {
    if p != [] && p[0].0 != name {
      GetSet(p[1..], name, value);
    }
  }

  /** The pair at index `i` is the only pair named `name`, and it holds `value`. */
  predicate OnlyPairAt(r: Params, i: int, name: string, value: string)
  {
    0 <= i < |r| && r[i] == (name, value) &&
    forall j :: 0 <= j < |r| && j != i ==> r[j].0 != name
  }

  /** After setting, the name occurs in exactly one pair, and that pair holds the value set. */
  lemma {:induction false} SetNameOnce(p: Params, name: string, value: string)
    ensures exists i :: OnlyPairAt(Set(p, name, value), i, name, value)
    decreases |p|
  {
    var r := Set(p, name, value);
    if p == [] {
      assert OnlyPairAt(r, 0, name, value);
    } else if p[0].0 == name {
      var rest := Delete(p[1..], name);
      assert r == [(name, value)] + rest;
      forall j | 0 < j < |r| ensures r[j].0 != name {
        assert r[j] == rest[j - 1] && rest[j - 1] in rest;
      }
      assert OnlyPairAt(r, 0, name, value);
    } else {
      SetNameOnce(p[1..], name, value);
      var tail := Set(p[1..], name, value);
      assert r == [p[0]] + tail;
      var k :| OnlyPairAt(tail, k, name, value);
      forall j | 0 <= j < |r| && j != k + 1 ensures r[j].0 != name {
        if j > 0 {
          assert r[j] == tail[j - 1];
        }
      }
      assert OnlyPairAt(r, k + 1, name, value);
    }
  }

  /** Deleting a name leaves no value under it. */
  lemma GetDelete(p: Params, name: string)
    ensures Get(Delete(p, name), name) == None
  {
  }

  /** Deleting a name leaves every other name's value as it was. */
  lemma {:induction false} GetDeleteOther(p: Params, name: string, other: string)
    requires other != name
    ensures Get(Delete(p, name), other) == Get(p, other)
    decreases |p|
  {
    if p != [] {
      GetDeleteOther(p[1..], name, other);
    }
  }

  /** Setting a name leaves every other name's value as it was. */
  lemma {:induction false} GetSetOther(p: Params, name: string, value: string, other: string)
    requires other != name
    ensures Get(Set(p, name, value), other) == Get(p, other)
    decreases |p|
  {
    if p != [] {
      if p[0].0 == name {
        GetDeleteOther(p[1..], name, other);
      } else {
        GetSetOther(p[1..], name, value, other);
      }
    }
  }

  lemma {:induction false} DeleteTwice(p: Params, name: string)
    ensures Delete(Delete(p, name), name) == Delete(p, name)
    decreases |p|
  {
    if p != [] {
      DeleteTwice(p[1..], name);
    }
  }

  /** Setting changes nothing but the pairs of its own name: the other pairs keep their order. */
  lemma {:induction false} DeleteSet(p: Params, name: string, value: string)
    ensures Delete(Set(p, name, value), name) == Delete(p, name)
    decreases |p|
  {
    if p != [] {
      if p[0].0 == name {
        DeleteTwice(p[1..], name);
      } else {
        DeleteSet(p[1..], name, value);
      }
    }
  }

  /** One pair as `params.toString()` writes it. */
  function Piece(pair: (string, string)): string
  {
    pair.0 + "=" + pair.1
  }

  /** `params.toString()`: the pairs as `name=value`, joined with '&'. */
  function Serialize(p: Params): string
  {
    Join(seq(|p|, i requires 0 <= i < |p| => Piece(p[i])), '&')
  }

  /** The index of the first '=' in `s`, or `|s|` when there is none. */
  function FirstEquals(s: string): (i: nat)
    ensures i <= |s| && '=' !in s[..i]
    ensures i < |s| ==> s[i] == '='
    decreases |s|
  {
    if s == [] || s[0] == '=' then 0
    else
      var i := 1 + FirstEquals(s[1..]);
      assert s[..i] == [s[0]] + s[1..][..i - 1];
      i
  }

  /** One piece of a query string read as a pair: split at the first '=', the value empty without one. */
  function ParsePiece(s: string): (string, string)
  {
    var i := FirstEquals(s);
    if i < |s| then (s[..i], s[i + 1..]) else (s, "")
  }

  /** `new URLSearchParams(query)`: the non-empty '&'-separated pieces, each read as a pair. */
  function Parse(query: string): Params
  {
    var pieces := Filter((w: string) => w != "", Split(query, '&'));
    seq(|pieces|, i requires 0 <= i < |pieces| => ParsePiece(pieces[i]))
  }

  /** A pair whose name has no '=' and whose name and value have no '&'. */
  predicate Writable(pair: (string, string))
  {
    '=' !in pair.0 && '&' !in pair.0 && '&' !in pair.1
  }

  /** Parameters every pair of which can be written and read back. */
  predicate AllWritable(p: Params)
  {
    forall i :: 0 <= i < |p| ==> Writable(p[i])
  }

  /** Setting a writable pair keeps every pair writable. */
  lemma SetWritable(p: Params, name: string, value: string)
    requires AllWritable(p) && Writable((name, value))
    ensures AllWritable(Set(p, name, value))
  {
    var q := Set(p, name, value);
    forall i | 0 <= i < |q| ensures Writable(q[i]) {
      assert q[i] in q;
    }
  }

  /** Deleting keeps every pair writable. */
  lemma DeleteWritable(p: Params, name: string)
    requires AllWritable(p)
    ensures AllWritable(Delete(p, name))
  {
    var q := Delete(p, name);
    forall i | 0 <= i < |q| ensures Writable(q[i]) {
      assert q[i] in q;
    }
  }

  lemma ParsePieceOfPiece(pair: (string, string))
    requires '=' !in pair.0
    ensures ParsePiece(Piece(pair)) == pair
  {
    var s := Piece(pair);
    assert s[|pair.0|] == '=';
    assert s[..|pair.0|] == pair.0;
    assert FirstEquals(s) == |pair.0|;
    assert s[|pair.0| + 1..] == pair.1;
  }

  /** Round trip: reading back a written query string gives the same pairs, in the same order. */
  lemma ParseSerialize(p: Params)
    requires AllWritable(p)
    ensures Parse(Serialize(p)) == p
  {
    var ws := seq(|p|, i requires 0 <= i < |p| => Piece(p[i]));
    if p == [] {
      assert Split("", '&') == [""];
    } else {
      forall i | 0 <= i < |ws| ensures '&' !in ws[i] {
        assert forall c :: c in ws[i] ==> c in p[i].0 || c == '=' || c in p[i].1;
      }
      SplitJoin(ws, '&');
      forall i | 0 <= i < |ws| ensures ws[i] != "" {
        assert ws[i][|p[i].0|] == '=';
      }
      FilterAllPass((w: string) => w != "", ws);
      forall i | 0 <= i < |p| ensures ParsePiece(ws[i]) == p[i] {
        ParsePieceOfPiece(p[i]);
      }
    }
  }

  /** The query parameters of a URL of the listing page, `/spots` or `/spots?<query>`; nothing for any
      other URL. */
  function ReadSpotsUrl(url: string): Option<Params>
  {
    if url == "/spots" then Some([])
    else if |url| >= 7 && url[..7] == "/spots?" then Some(Parse(url[7..]))
    else None
  }

  /** A listing URL with a query reads back as the parameters the query was written from. */
  lemma QueryUrlReadsBack(p: Params)
    requires AllWritable(p)
    ensures ReadSpotsUrl("/spots?" + Serialize(p)) == Some(p)
  {
    ParseSerialize(p);
    var url := "/spots?" + Serialize(p);
    assert url[..7] == "/spots?" && url[7..] == Serialize(p);
  }
}
