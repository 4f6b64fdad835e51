/**
 * The query string of a URL, read back the way a receiving server reads it:
 * the text after the first `?`, split on `&` into parameters, each cut at
 * its first `=` into a name and a value. This is the reference against
 * which the authorization URL the application builds is checked.
 */
module Query {
  import opened Wrappers

  /** `s` cut at the first `sep`: the text before it and the text after it;
      when `sep` does not occur, all of `s` and nothing. */
  function CutAt(s: string, sep: char): (r: (string, string))
    ensures sep !in r.0
    ensures sep in s ==> s == r.0 + [sep] + r.1
    ensures sep !in s ==> r == (s, "")
  {
    if |s| == 0 then ("", "")
    else if s[0] == sep then ("", s[1..])
    else
      var t := CutAt(s[1..], sep);
      assert s == [s[0]] + s[1..];
      ([s[0]] + t.0, t.1)
  }

  /** Cutting is unique: text with no `sep`, then `sep`, then anything, is
      cut exactly there. */
  lemma {:induction false} CutAtJoin(p: string, sep: char, q: string)
    requires sep !in p
    ensures CutAt(p + [sep] + q, sep) == (p, q)
  {
    if p != [] {
      assert (p + [sep] + q)[1..] == p[1..] + [sep] + q;
      CutAtJoin(p[1..], sep, q);
      assert p == [p[0]] + p[1..];
    } else {
      assert p + [sep] + q == [sep] + q;
    }
  }

  /** `s` split at every `sep`; no piece contains `sep`. */
  function Split(s: string, sep: char): (parts: seq<string>)
    ensures |parts| >= 1
    ensures forall i :: 0 <= i < |parts| ==> sep !in parts[i]
    decreases |s|
  {
    var cut := CutAt(s, sep);
    if sep in s then [cut.0] + Split(cut.1, sep) else [cut.0]
  }

  /** The pieces glued back together with `sep` between them. */
  function Join(parts: seq<string>, sep: char): string
    requires |parts| >= 1
  {
    if |parts| == 1 then parts[0] else parts[0] + [sep] + Join(parts[1..], sep)
  }

  /** Five pieces joined: each followed by the separator but the last. */
  lemma JoinFive(parts: seq<string>, sep: char)
    requires |parts| == 5
    ensures Join(parts, sep) == parts[0] + [sep] + parts[1] + [sep] + parts[2] + [sep] + parts[3] + [sep] + parts[4]
  {
    assert Join(parts[4..], sep) == parts[4];
    assert Join(parts[3..], sep) == parts[3] + [sep] + parts[4];
    assert Join(parts[2..], sep) == parts[2] + [sep] + (parts[3] + [sep] + parts[4]);
    assert Join(parts[1..], sep) == parts[1] + [sep] + (parts[2] + [sep] + (parts[3] + [sep] + parts[4]));
  }

  /** Splitting undoes joining when no piece contains the separator. */
  lemma {:induction false} SplitJoin(parts: seq<string>, sep: char)
    requires |parts| >= 1
    requires forall i :: 0 <= i < |parts| ==> sep !in parts[i]
    ensures Split(Join(parts, sep), sep) == parts
  {
    if |parts| > 1 {
      var rest := Join(parts[1..], sep);
      CutAtJoin(parts[0], sep, rest);
      assert sep in Join(parts, sep) by {
        assert Join(parts, sep)[|parts[0]|] == sep;
      }
      SplitJoin(parts[1..], sep);
      assert parts == [parts[0]] + parts[1..];
    }
  }

  /** Each `name=value` parameter as a (name, value) pair. */
  function Pairs(params: seq<string>): (r: seq<(string, string)>)
    ensures |r| == |params|
    ensures forall i :: 0 <= i < |params| ==> r[i] == CutAt(params[i], '=')
  {
    if params == [] then [] else [CutAt(params[0], '=')] + Pairs(params[1..])
  }

  /** The parameters of the query part of `url`, in order. */
  function ParseQuery(url: string): seq<(string, string)> {
    Pairs(Split(CutAt(url, '?').1, '&'))
  }

  /** Parameters written out as `name=value` each. */
  function Render(params: seq<(string, string)>): (parts: seq<string>)
    ensures |parts| == |params|
    ensures forall i :: 0 <= i < |params| ==> parts[i] == params[i].0 + "=" + params[i].1
  {
    seq(|params|, i requires 0 <= i < |params| => params[i].0 + "=" + params[i].1)
  }

  /** A query string: the rendered parameters joined with `&`. */
  function QueryString(params: seq<(string, string)>): string
    requires |params| >= 1
  {
    Join(Render(params), '&')
  }

  /** Parameters with no `=` in a name and no `&` anywhere. */
  predicate Plain(params: seq<(string, string)>) {
    forall i :: 0 <= i < |params| ==> '=' !in params[i].0 && '&' !in params[i].0 && '&' !in params[i].1
  }

  /**
   * Reading back a URL built from a `?`-free prefix and a query string
   * yields the parameters it was built from, in order.
   */
  lemma ParseRendered(prefix: string, params: seq<(string, string)>)
    requires '?' !in prefix && |params| >= 1 && Plain(params)
    ensures ParseQuery(prefix + ['?'] + QueryString(params)) == params
  {
    var parts := Render(params);
    CutAtJoin(prefix, '?', QueryString(params));
    forall i | 0 <= i < |parts| ensures '&' !in parts[i] {
      assert parts[i] == params[i].0 + ['='] + params[i].1;
    }
    SplitJoin(parts, '&');
    forall i | 0 <= i < |parts| ensures CutAt(parts[i], '=') == params[i] {
      assert parts[i] == params[i].0 + ['='] + params[i].1;
      CutAtJoin(params[i].0, '=', params[i].1);
    }
  }

  /** The value of the first parameter named `name`, if any. */
  function Lookup(pairs: seq<(string, string)>, name: string): Option<string> {
    if pairs == [] then None
    else if pairs[0].0 == name then Some(pairs[0].1)
    else Lookup(pairs[1..], name)
  }

  function QueryParam(url: string, name: string): Option<string> {
    Lookup(ParseQuery(url), name)
  }
}
