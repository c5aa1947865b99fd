/** The scrapers `_getToken` (sisAPI.py) uses to cut values out of URLs and
    HTML bodies: find a marker, skip a fixed number of characters past the
    start of the marker, and keep everything up to a one-character
    delimiter. They are modelled with Python's exact `find`/slice
    behaviour, including what happens when a marker or delimiter is
    missing. */
module Extractors {
  import opened PyStr

  const AuthStateMarker := "AuthState="
  const AuthStateOffset := 10
  const SamlResponseMarker := "name=\"SAMLResponse\""
  const SamlResponseOffset := 27
  const RelayStateMarker := "name=\"RelayState\""
  const RelayStateOffset := 25
  const AccessTokenMarker := "access_token"
  const AccessTokenOffset := 13

  /** What an HTML form field emits between its name attribute and its
      value: the offsets above skip exactly this. */
  const ValueOpening := " value=\""

  /** Each offset is the marker's length plus what stands between the
      marker and the value. */
  lemma OffsetsSkipMarker()
    ensures AuthStateOffset == |AuthStateMarker|
    ensures SamlResponseOffset == |SamlResponseMarker| + |ValueOpening|
    ensures RelayStateOffset == |RelayStateMarker| + |ValueOpening|
    ensures AccessTokenOffset == |AccessTokenMarker| + |"="|
  {
  }

  /** `text[text.find(marker) + offset:]`. With the marker at i this is the
      text from i + offset on; with no marker, find gives -1 and the slice
      starts at offset - 1. */
  function After(text: string, marker: string, offset: nat): (r: string)
    ensures forall i :: FirstAt(text, marker, i) ==> r == Suffix(text, i + offset)
    ensures Absent(text, marker) && offset >= 1 ==> r == Suffix(text, offset - 1)
  {
    SliceFrom(text, Find(text, marker) + offset)
  }

  lemma OccursAtChar(s: string, c: char, i: int)
    ensures OccursAt(s, [c], i) <==> 0 <= i < |s| && s[i] == c
  {
    if 0 <= i < |s| {
      assert s[i..i + 1] == [s[i]];
    }
  }

  /** `text[:text.find(delim)]`: the text before the first delimiter; with
      no delimiter find gives -1 and the slice drops the last character. */
  function UpTo(text: string, delim: char): (r: string)
    ensures delim !in r
    ensures |r| <= |text| && r == text[..|r|]
    ensures delim in text ==> |r| < |text| && text[|r|] == delim
    ensures delim !in text ==> |r| == if |text| == 0 then 0 else |text| - 1
  {
    var k := Find(text, [delim]);
    OccursAtChar(text, delim, k);
    assert forall j :: 0 <= j < |text| && text[j] == delim ==> OccursAt(text, [delim], j) by {
      forall j | 0 <= j < |text| && text[j] == delim ensures OccursAt(text, [delim], j) {
        OccursAtChar(text, delim, j);
      }
    }
    assert forall j :: 0 <= j < k ==> text[j] != delim by {
      forall j | 0 <= j < k ensures text[j] != delim {
        OccursAtChar(text, delim, j);
      }
    }
    SliceTo(text, k)
  }

  /** The AuthState parameter of hop 1's final URL (sisAPI.py:61-63):
      everything after `AuthState=`, with no delimiter. */
  function AuthStateValue(url: string): string
  {
    After(url, AuthStateMarker, AuthStateOffset)
  }

  /** The value of the hidden `SAMLResponse` field of a form
      (sisAPI.py:74-75 and 82-83). */
  function SamlResponseValue(body: string): string
  {
    UpTo(After(body, SamlResponseMarker, SamlResponseOffset), '"')
  }

  /** The value of the hidden `RelayState` field of a form (sisAPI.py:85-86). */
  function RelayStateValue(body: string): string
  {
    UpTo(After(body, RelayStateMarker, RelayStateOffset), '"')
  }

  /** The `access_token` parameter of hop 4's final URL (sisAPI.py:92-93). */
  function AccessTokenValue(url: string): string
  {
    UpTo(After(url, AccessTokenMarker, AccessTokenOffset), '&')
  }

  /** No occurrence of `marker` starts inside `pre`, even one running on
      into a marker placed right after it. */
  ghost predicate NoMarkerIn(pre: string, marker: string)
  {
    forall i :: 0 <= i < |pre| ==> !OccursAt(pre + marker, marker, i)
  }

  /** The marker placed after such a prefix is the first one, whatever follows. */
  lemma {:induction false} FindAfterPrefix(pre: string, marker: string, rest: string)
    requires NoMarkerIn(pre, marker)
    ensures Find(pre + marker + rest, marker) == |pre|
  {
    var s := pre + marker + rest;
    assert s[|pre|..|pre| + |marker|] == marker;
    forall j | 0 <= j < |pre|
      ensures !OccursAt(s, marker, j)
    {
      if j + |marker| <= |s| {
        assert s[j..j + |marker|] == (pre + marker)[j..j + |marker|];
      }
      assert !OccursAt(pre + marker, marker, j);
    }
    FindIsFirst(s, marker, |pre|);
  }

  /** A value free of the delimiter is never cut inside. */
  lemma UpToValue(v: string, delim: char, rest: string)
    requires delim !in v
    ensures UpTo(v + [delim] + rest, delim) == v
  {
    var t := v + [delim] + rest;
    assert t[|v|] == delim;
  }

  /** Hidden-field round trip: a body that carries
      `name="SAMLResponse" value="v"` (and no earlier marker) yields v. */
  lemma {:induction false} SamlResponseOfForm(pre: string, v: string, post: string)
    requires NoMarkerIn(pre, SamlResponseMarker)
    requires '"' !in v
    ensures SamlResponseValue(pre + SamlResponseMarker + ValueOpening + v + "\"" + post) == v
  {
    FieldOfForm(pre, SamlResponseMarker, v, post);
  }

  /** Hidden-field round trip for `name="RelayState" value="v"`. */
  lemma {:induction false} RelayStateOfForm(pre: string, v: string, post: string)
    requires NoMarkerIn(pre, RelayStateMarker)
    requires '"' !in v
    ensures RelayStateValue(pre + RelayStateMarker + ValueOpening + v + "\"" + post) == v
  {
    FieldOfForm(pre, RelayStateMarker, v, post);
  }

  lemma {:induction false} FieldOfForm(pre: string, marker: string, v: string, post: string)
    requires NoMarkerIn(pre, marker)
    requires '"' !in v
    ensures UpTo(After(pre + marker + ValueOpening + v + "\"" + post, marker, |marker| + |ValueOpening|), '"') == v
  {
    var body := pre + marker + ValueOpening + v + "\"" + post;
    assert body == pre + marker + (ValueOpening + v + "\"" + post);
    FindAfterPrefix(pre, marker, ValueOpening + v + "\"" + post);
    assert FirstAt(body, marker, |pre|);
    var a := After(body, marker, |marker| + |ValueOpening|);
    assert a == body[|pre| + |marker| + |ValueOpening|..];
    assert a == v + ['"'] + post;
    UpToValue(v, '"', post);
  }

  /** AuthState round trip: everything after `AuthState=` is taken, to the
      end of the URL. */
  lemma {:induction false} AuthStateOfUrl(pre: string, v: string)
    requires NoMarkerIn(pre, AuthStateMarker)
    ensures AuthStateValue(pre + AuthStateMarker + v) == v
  {
    var url := pre + AuthStateMarker + v;
    FindAfterPrefix(pre, AuthStateMarker, v);
    assert FirstAt(url, AuthStateMarker, |pre|);
    assert url[|pre| + AuthStateOffset..] == v;
  }

  /** Access-token round trip when another parameter follows the token. */
  lemma {:induction false} AccessTokenOfUrl(pre: string, token: string, rest: string)
    requires NoMarkerIn(pre, AccessTokenMarker)
    requires '&' !in token
    ensures AccessTokenValue(pre + AccessTokenMarker + "=" + token + "&" + rest) == token
  {
    var url := pre + AccessTokenMarker + "=" + token + "&" + rest;
    assert url == pre + AccessTokenMarker + ("=" + token + "&" + rest);
    FindAfterPrefix(pre, AccessTokenMarker, "=" + token + "&" + rest);
    assert FirstAt(url, AccessTokenMarker, |pre|);
    assert url[|pre| + AccessTokenOffset..] == token + ['&'] + rest;
    UpToValue(token, '&', rest);
  }

  /** When the token is the last parameter, no `&` follows it, find gives
      -1, and `[:-1]` drops the token's last character. */
  lemma {:induction false} AccessTokenLastParameter(pre: string, token: string)
    requires NoMarkerIn(pre, AccessTokenMarker)
    requires '&' !in token && token != []
    ensures AccessTokenValue(pre + AccessTokenMarker + "=" + token) == token[..|token| - 1]
  {
    var url := pre + AccessTokenMarker + "=" + token;
    assert url == pre + AccessTokenMarker + ("=" + token);
    FindAfterPrefix(pre, AccessTokenMarker, "=" + token);
    assert FirstAt(url, AccessTokenMarker, |pre|);
    assert url[|pre| + AccessTokenOffset..] == token;
  }

  /** With no marker, the value is read from a fixed place near the start
      of the text: find's -1 makes the slice start at offset - 1. */
  lemma MissingMarkers(text: string)
    ensures Absent(text, AuthStateMarker) ==> AuthStateValue(text) == Suffix(text, AuthStateOffset - 1)
    ensures Absent(text, SamlResponseMarker) ==>
      SamlResponseValue(text) == UpTo(Suffix(text, SamlResponseOffset - 1), '"')
    ensures Absent(text, RelayStateMarker) ==>
      RelayStateValue(text) == UpTo(Suffix(text, RelayStateOffset - 1), '"')
    ensures Absent(text, AccessTokenMarker) ==>
      AccessTokenValue(text) == UpTo(Suffix(text, AccessTokenOffset - 1), '&')
  {
  }

  /** The form values never contain a double quote and the token never
      contains an ampersand, whatever the input. */
  lemma ValuesExcludeDelimiters(text: string)
    ensures '"' !in SamlResponseValue(text)
    ensures '"' !in RelayStateValue(text)
    ensures '&' !in AccessTokenValue(text)
  {
  }
}
