/**
 * Deriving the client address of an inbound message (index.js:56-58): the
 * first comma-separated element of the `x-forwarded-for` header, with
 * surrounding white space removed, or the socket's address when that is
 * empty or the header is absent.
 */
module Address {
  import opened Wrappers

  /** The characters `String.prototype.trim` removes: ECMAScript WhiteSpace
      (tab, vertical tab, form feed, space, no-break space, byte order mark and
      the Unicode space separators) and LineTerminator (LF, CR, LS, PS). */
  predicate IsSpace(c: char)
  {
    c == '\t' || c == '\n' || c == '\U{000B}' || c == '\U{000C}' || c == '\r' || c == ' ' ||
    c == '\U{00A0}' || c == '\U{1680}' || ('\U{2000}' <= c <= '\U{200A}') ||
    c == '\U{2028}' || c == '\U{2029}' || c == '\U{202F}' || c == '\U{205F}' ||
    c == '\U{3000}' || c == '\U{FEFF}'
  }

  /** ECMAScript LineTerminator: LF, CR, LINE SEPARATOR and PARAGRAPH SEPARATOR. */
  predicate IsLineTerminator(c: char)
  {
    c == '\n' || c == '\r' || c == '\U{2028}' || c == '\U{2029}'
  }

  /** The Unicode space separators (general category Zs). */
  predicate IsSpaceSeparator(c: char)
  {
    c == ' ' || c == '\U{00A0}' || c == '\U{1680}' || ('\U{2000}' <= c <= '\U{200A}') ||
    c == '\U{202F}' || c == '\U{205F}' || c == '\U{3000}'
  }

  /** ECMAScript WhiteSpace: TAB, VT, FF, ZWNBSP (the byte order mark) and every Zs character. */
  predicate IsWhiteSpace(c: char)
  {
    c == '\t' || c == '\U{000B}' || c == '\U{000C}' || c == '\U{FEFF}' || IsSpaceSeparator(c)
  }

  /** `trim()` removes exactly WhiteSpace and LineTerminator characters, and
      never a character that can make up an address or its separator. */
  lemma TrimmedCharacters(c: char)
    ensures IsSpace(c) <==> IsWhiteSpace(c) || IsLineTerminator(c)
    ensures ('0' <= c <= '9' || 'a' <= c <= 'z' || 'A' <= c <= 'Z' || c == '.' || c == ':' || c == ',') ==> !IsSpace(c)
  {
  }

  /** `s.split(",")[0]`: everything before the first comma, or all of `s`. */
  function FirstField(s: string): (r: string)
    ensures r <= s
    ensures ',' !in r
    ensures |r| < |s| ==> s[|r|] == ','
  {
    if s == [] || s[0] == ',' then [] else [s[0]] + FirstField(s[1..])
  }

  /** Removes leading white space: the result is the longest suffix of `s`
      that does not start with white space. */
  function TrimStart(s: string): (r: string)
    ensures |r| <= |s| && r == s[|s| - |r|..]
    ensures forall i :: 0 <= i < |s| - |r| ==> IsSpace(s[i])
    ensures r != [] ==> !IsSpace(r[0])
  {
    if s != [] && IsSpace(s[0]) then TrimStart(s[1..]) else s
  }

  /** Removes trailing white space: the result is the longest prefix of `s`
      that does not end with white space. */
  function TrimEnd(s: string): (r: string)
    ensures r <= s
    ensures forall i :: |r| <= i < |s| ==> IsSpace(s[i])
    ensures r != [] ==> !IsSpace(r[|r| - 1])
  {
    if s != [] && IsSpace(s[|s| - 1]) then TrimEnd(s[..|s| - 1]) else s
  }

  /** `s.trim()`: the part of `s` between its leading and its trailing white space. */
  function Trim(s: string): (r: string)
    ensures r == [] <==> forall i :: 0 <= i < |s| ==> IsSpace(s[i])
    ensures r != [] ==> !IsSpace(r[0]) && !IsSpace(r[|r| - 1])
    ensures exists k, j {:trigger SpaceOutside(s, k, j)} :: SpaceOutside(s, k, j) && r == s[k..j]
  {
    var t := TrimStart(s);
    var r := TrimEnd(t);
    assert r != [] ==> r[0] == t[0] && !IsSpace(r[0]) && !IsSpace(r[|r| - 1]);
    TrimBothEnds(s, t, r);
    r
  }

  /** Trimming both ends, `t` the left trim of `s` and `r` the right trim of
      `t`, leaves a part of `s` with only white space around it, and leaves
      nothing exactly when `s` is all white space. */
  lemma TrimBothEnds(s: string, t: string, r: string)
    requires t == TrimStart(s) && r == TrimEnd(t)
    ensures exists k, j {:trigger SpaceOutside(s, k, j)} :: SpaceOutside(s, k, j) && r == s[k..j]
    ensures r == [] <==> forall i :: 0 <= i < |s| ==> IsSpace(s[i])
  {
    if r == [] {
      assert t == [];
    }
    assert t != [] ==> s[|s| - |t|] == t[0];
    TrimIsSlice(s, t, r);
  }

  /** Cutting white space off the front of `s`, giving `t`, and then off the
      back of `t`, giving `r`, leaves a slice of `s` with only white space
      around it. */
  lemma TrimIsSlice(s: string, t: string, r: string)
    requires |t| <= |s| && t == s[|s| - |t|..] && (forall i :: 0 <= i < |s| - |t| ==> IsSpace(s[i]))
    requires r <= t && (forall i :: |r| <= i < |t| ==> IsSpace(t[i]))
    ensures exists k, j {:trigger SpaceOutside(s, k, j)} :: SpaceOutside(s, k, j) && r == s[k..j]
  {
    var k := |s| - |t|;
    forall i | k + |r| <= i < |s|
      ensures IsSpace(s[i])
    {
      assert s[i] == t[i - k];
    }
    AllSpaceEverywhere(s[..k]);
    AllSpaceEverywhere(s[k + |r|..]);
    assert forall i :: 0 <= i < k ==> s[..k][i] == s[i];
    var tail := s[k + |r|..];
    assert forall i :: 0 <= i < |tail| ==> tail[i] == s[k + |r| + i];
    assert SpaceOutside(s, k, k + |r|);
    assert r == s[k..k + |r|];
  }

  /** `s[k..j]` is a slice of `s` with only white space before and after it. */
  predicate SpaceOutside(s: string, k: int, j: int)
  {
    0 <= k <= j <= |s| && AllSpace(s[..k]) && AllSpace(s[j..])
  }

  /** Every character of `s` is white space. */
  predicate AllSpace(s: string)
  {
    s == [] || (IsSpace(s[0]) && AllSpace(s[1..]))
  }

  /** `AllSpace` holds exactly when every position of `s` holds white space. */
  lemma {:induction false} AllSpaceEverywhere(s: string)
    ensures AllSpace(s) <==> forall i :: 0 <= i < |s| ==> IsSpace(s[i])
  {
    if s != [] {
      AllSpaceEverywhere(s[1..]);
      assert forall i :: 1 <= i < |s| ==> s[i] == s[1..][i - 1];
    }
  }

  /** The header names an address: some character before its first comma is
      neither white space nor the comma itself. */
  predicate NamesAddress(header: string)
  {
    exists i {:trigger NoCommaBefore(header, i)} ::
      0 <= i < |header| && header[i] != ',' && !IsSpace(header[i]) && NoCommaBefore(header, i)
  }

  /** No comma occurs among the first `n` characters of `s`. */
  predicate NoCommaBefore(s: string, n: nat)
  {
    forall k :: 0 <= k < n && k < |s| ==> s[k] != ','
  }

  /** The trimmed first element is non-empty exactly when the header names an address. */
  lemma TrimmedFirstFieldNonEmpty(header: string)
    ensures Trim(FirstField(header)) != [] <==> NamesAddress(header)
  {
    var f := FirstField(header);
    if Trim(f) != [] {
      var i :| 0 <= i < |f| && !IsSpace(f[i]);
      NamedBefore(header, f, i);
    }
    if NamesAddress(header) {
      var i :| 0 <= i < |header| && header[i] != ',' && !IsSpace(header[i]) && NoCommaBefore(header, i);
      WithinFirstField(header, f, i);
      assert !IsSpace(f[i]);
    }
  }

  /** A non-space character in the first field is one before the first comma. */
  lemma NamedBefore(header: string, f: string, i: nat)
    requires f == FirstField(header) && i < |f| && !IsSpace(f[i])
    ensures NamesAddress(header)
  {
    assert f[i] == header[i];
    assert NoCommaBefore(header, i);
  }

  /** A character before the first comma lies inside the first field, unchanged. */
  lemma WithinFirstField(header: string, f: string, i: nat)
    requires f == FirstField(header) && i < |header| && NoCommaBefore(header, i) && header[i] != ','
    ensures i < |f| && f[i] == header[i]
    decreases i
  {
    assert header[0] != ',';
    if i > 0 {
      WithinFirstField(header[1..], FirstField(header[1..]), i - 1);
    }
  }

  /** The address `ip` of index.js:56-58: the trimmed first element of the
      forwarded-for header when that is non-empty, otherwise the socket address.
      Without the header the socket address is used, and any other answer is a
      well-formed address taken from the header. */
  function ClientAddress(forwardedFor: Option<string>, remote: string): (ip: string)
    ensures forwardedFor.None? ==> ip == remote
    ensures ip == remote || WellFormedAddress(ip)
  {
    match forwardedFor
    case None => remote
    case Some(header) =>
      var first := Trim(FirstField(header));
      CommaFreeTrim(FirstField(header));
      if first != [] then first else remote
  }

  /** What an address taken from the header looks like: non-empty, free of
      commas, and with no white space at either end. */
  predicate WellFormedAddress(ip: string)
  {
    ip != [] && ',' !in ip && !IsSpace(ip[0]) && !IsSpace(ip[|ip| - 1])
  }

  /** The header decides exactly when it names an address: the address is then
      its trimmed first element, which is well formed; otherwise the socket
      address is used. */
  lemma ClientAddressDerived(forwardedFor: Option<string>, remote: string)
    ensures forwardedFor.Some? && NamesAddress(forwardedFor.value) ==>
      && ClientAddress(forwardedFor, remote) == Trim(FirstField(forwardedFor.value))
      && WellFormedAddress(ClientAddress(forwardedFor, remote))
    ensures !(forwardedFor.Some? && NamesAddress(forwardedFor.value)) ==>
      ClientAddress(forwardedFor, remote) == remote
  {
    match forwardedFor
    case None =>
    case Some(header) =>
      HeaderAddress(header);
  }

  /** The trimmed first element of a header is well formed when the header
      names an address, and empty otherwise. */
  lemma HeaderAddress(header: string)
    ensures NamesAddress(header) ==> WellFormedAddress(Trim(FirstField(header)))
    ensures !NamesAddress(header) ==> Trim(FirstField(header)) == []
  {
    TrimmedFirstFieldNonEmpty(header);
    CommaFreeTrim(FirstField(header));
  }

  /** With a forwarded-for header that names an address, the socket address
      plays no part in the result. */
  lemma HeaderWins(header: string, remote: string, remote': string)
    requires NamesAddress(header)
    ensures ClientAddress(Some(header), remote) == ClientAddress(Some(header), remote')
  {
    ClientAddressDerived(Some(header), remote);
    ClientAddressDerived(Some(header), remote');
  }

  /** Trimming a comma-free string leaves it comma-free. */
  lemma CommaFreeTrim(s: string)
    requires ',' !in s
    ensures ',' !in Trim(s)
  {
    var r := Trim(s);
    var k, j :| SpaceOutside(s, k, j) && r == s[k..j];
    MissingFromSlice(s, k, j, ',');
  }

  /** A character missing from `s` is missing from every slice of it. */
  lemma MissingFromSlice(s: string, k: int, j: int, c: char)
    requires 0 <= k <= j <= |s| && c !in s
    ensures c !in s[k..j]
  {
    assert forall i :: 0 <= i < j - k ==> s[k..j][i] == s[k + i];
  }

  /** `FirstField` is determined by its contract: the prefix up to the first comma. */
  lemma FirstFieldIs(s: string, k: nat)
    requires k <= |s| && ',' !in s[..k] && (k == |s| || s[k] == ',')
    ensures FirstField(s) == s[..k]
  {
    assert forall j :: 0 <= j < k ==> s[..k][j] == s[j];
  }

  /** `TrimStart` is determined by its contract: it drops exactly the leading white space. */
  lemma TrimStartIs(s: string, k: nat)
    requires k <= |s| && (forall i :: 0 <= i < k ==> IsSpace(s[i])) && (k == |s| || !IsSpace(s[k]))
    ensures TrimStart(s) == s[k..]
  {
    var r := TrimStart(s);
    assert r != [] ==> r[0] == s[|s| - |r|];
  }

  /** `TrimEnd` is determined by its contract: it drops exactly the trailing white space. */
  lemma TrimEndIs(s: string, k: nat)
    requires k <= |s| && (forall i :: k <= i < |s| ==> IsSpace(s[i])) && (k == 0 || !IsSpace(s[k - 1]))
    ensures TrimEnd(s) == s[..k]
  {
    var r := TrimEnd(s);
    assert r != [] ==> r[|r| - 1] == s[|r| - 1];
  }
}
