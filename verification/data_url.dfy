/**
 * Data URLs (`data:image/jpeg;base64,<payload>`, RFC 2397 section 3) as the
 * worker reads them: with `split(',')[1]`, i.e. the text between the first
 * comma and the next comma (or the end).
 */
module DataUrl {
  import opened Wrappers
  import opened Sequences

  /** `s.split(sep)`: the fields of `s` between occurrences of `sep`. */
  function Split(s: string, sep: char): (fields: seq<string>)
    ensures |fields| >= 1
    ensures forall i :: 0 <= i < |fields| ==> sep !in fields[i]
    decreases |s|
  {
    if s == [] then [""]
    else
      var rest := Split(s[1..], sep);
      if s[0] == sep then [""] + rest
      else [[s[0]] + rest[0]] + rest[1..]
  }

  /** `fields.join(sep)`, the inverse of `Split`. */
  function Join(fields: seq<string>, sep: char): string
    requires |fields| >= 1
  {
    if |fields| == 1 then fields[0] else fields[0] + [sep] + Join(fields[1..], sep)
  }

  /** Splitting loses nothing: joining the fields back gives the original text. */
  lemma {:induction false} SplitJoin(s: string, sep: char)
    ensures Join(Split(s, sep), sep) == s
    decreases |s|
  {
    if s != [] {
      SplitJoin(s[1..], sep);
      var rest := Split(s[1..], sep);
      if s[0] != sep && |rest| > 1 {
        assert Join(Split(s, sep), sep) == [s[0]] + rest[0] + [sep] + Join(rest[1..], sep);
      }
    }
  }

  /** `dataUrl.split(',')[1]`: `undefined` when there is no comma. */
  function Payload(dataUrl: string): Option<string> {
    var fields := Split(dataUrl, ',');
    if |fields| > 1 then Some(fields[1]) else None
  }

  /**
   * The payload is the text after the first comma, cut at the next comma:
   * `None` exactly when the URL has no comma.
   */
  lemma {:induction false} PayloadAfterFirstComma(dataUrl: string)
    ensures Payload(dataUrl).None? <==> ',' !in dataUrl
    ensures Payload(dataUrl).Some? ==>
      var i := IndexOf(dataUrl, ',').value;
      var p := Payload(dataUrl).value;
      ',' !in p && i + 1 + |p| <= |dataUrl| && dataUrl[i + 1..i + 1 + |p|] == p &&
      (i + 1 + |p| == |dataUrl| || dataUrl[i + 1 + |p|] == ',')
  {
    SplitJoin(dataUrl, ',');
    var fields := Split(dataUrl, ',');
    if |fields| > 1 {
      JoinShape(fields, ',');
    } else {
      assert Join(fields, ',') == fields[0];
    }
  }

  /** With at least two fields, the join is field 0, a separator, field 1, then the rest. */
  lemma {:induction false} JoinShape(fields: seq<string>, sep: char)
    requires |fields| > 1 && forall i :: 0 <= i < |fields| ==> sep !in fields[i]
    ensures var s := Join(fields, sep);
      var n0, n1 := |fields[0]|, |fields[1]|;
      n0 + 1 + n1 <= |s| && s[..n0] == fields[0] && s[n0] == sep &&
      s[n0 + 1..n0 + 1 + n1] == fields[1] &&
      (n0 + 1 + n1 == |s| || s[n0 + 1 + n1] == sep) &&
      IndexOf(s, sep) == Some(n0)
  {
    var s := Join(fields, sep);
    var n0, n1 := |fields[0]|, |fields[1]|;
    var tail := Join(fields[1..], sep);
    assert s == fields[0] + [sep] + tail;
    assert fields[1..][0] == fields[1];
    if |fields| > 2 {
      assert fields[1..][1..] == fields[2..];
      assert tail == fields[1] + [sep] + Join(fields[2..], sep);
      assert tail[n1] == sep;
    }
    assert n1 <= |tail| && tail[..n1] == fields[1];
    assert s[..n0] == fields[0];
    assert s[n0 + 1..n0 + 1 + n1] == tail[..n1];
    assert n0 + 1 + n1 < |s| ==> s[n0 + 1 + n1] == tail[n1];
    IndexOfPrefix(s, fields[0], sep);
  }

  lemma IndexOfPrefix(s: string, prefix: string, c: char)
    requires |prefix| < |s| && s[..|prefix|] == prefix && c !in prefix && s[|prefix|] == c
    ensures IndexOf(s, c) == Some(|prefix|)
  {
    var r := IndexOf(s, c);
    assert s[..r.value + 1][|prefix|] == c;
  }

  /**
   * `ScreenshotAPI.getSize`: the length of `dataUrl?.split(',')[1] || ''`
   * (a null URL is passed as `None`).
   */
  function GetSize(dataUrl: Option<string>): (n: nat)
    ensures dataUrl.None? ==> n == 0
    ensures dataUrl.Some? && ',' !in dataUrl.value ==> n == 0
    ensures dataUrl.Some? && Payload(dataUrl.value).Some? ==> n == |Payload(dataUrl.value).value|
    ensures n <= (if dataUrl.Some? then |dataUrl.value| else 0)
  {
    match dataUrl
    case None => 0
    case Some(u) =>
      PayloadAfterFirstComma(u);
      match Payload(u)
      case None => 0
      case Some(p) => |p|
  }
}
