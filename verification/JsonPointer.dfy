/** JSON Pointers, section 3 and 4 of RFC 6901: reference tokens after slashes, with "~1" for a slash
    and "~0" for a tilde. A patch path built by putting a slash before a name is read back here. */
module JsonPointer {
  import opened Basics

  /** The pieces of s between slashes; at least one. */
  function Pieces(s: string): (r: seq<string>)
    ensures r != []
  {
    if s == "" then [""]
    else
      var rest := Pieces(s[1..]);
      if s[0] == '/' then [""] + rest else [[s[0]] + rest[0]] + rest[1..]
  }

  function Unescape(t: string): (r: Option<string>)
    ensures r.Some? ==> |r.value| <= |t|
  {
    if t == "" then Some("")
    else if t[0] != '~' then
      var rest := Unescape(t[1..]);
      if rest.Some? then Some([t[0]] + rest.value) else None
    else if |t| < 2 || (t[1] != '0' && t[1] != '1') then None
    else
      var rest := Unescape(t[2..]);
      if rest.Some? then Some([if t[1] == '1' then '/' else '~'] + rest.value) else None
  }

  /** The member of the document's top level that the path addresses, if it addresses one. */
  function TopLevelKey(path: string): Option<string> {
    if path == "" || path[0] != '/' || |Pieces(path[1..])| != 1 then None
    else Unescape(path[1..])
  }

  predicate Plain(name: string) {
    '/' !in name && '~' !in name
  }

  lemma {:induction false} OnePieceExactly(s: string)
    ensures |Pieces(s)| == 1 <==> '/' !in s
  {
    if s != "" {
      OnePieceExactly(s[1..]);
      assert s == [s[0]] + s[1..];
    }
  }

  /** Without a tilde a token stands for itself; with one it becomes shorter or is malformed. */
  lemma {:induction false} UnescapeExactly(t: string)
    ensures '~' !in t ==> Unescape(t) == Some(t)
    ensures '~' in t && Unescape(t).Some? ==> |Unescape(t).value| < |t|
  {
    if t != "" {
      assert t == [t[0]] + t[1..];
      UnescapeExactly(t[1..]);
    }
  }

  /** Escaping, section 3 of RFC 6901: what a slash and a tilde in a name are written as. */
  function Escape(name: string): string {
    if name == "" then ""
    else (if name[0] == '~' then ['~', '0'] else if name[0] == '/' then ['~', '1'] else [name[0]]) + Escape(name[1..])
  }

  lemma {:induction false} EscapeReadsBack(name: string)
    ensures Unescape(Escape(name)) == Some(name) && '/' !in Escape(name)
  {
    if name != "" {
      EscapeReadsBack(name[1..]);
      var rest, all := Escape(name[1..]), Escape(name);
      assert name == [name[0]] + name[1..];
      assert if name[0] in {'~', '/'} then all[2..] == rest else all[1..] == rest;
    }
  }

  /** Every name can be addressed, but only escaped. */
  lemma EscapedNameIsAddressed(name: string)
    ensures TopLevelKey("/" + Escape(name)) == Some(name)
  {
    assert ("/" + Escape(name))[1..] == Escape(name);
    EscapeReadsBack(name);
    OnePieceExactly(Escape(name));
  }

  /** A name put behind a slash addresses itself exactly when it has neither a slash nor a tilde. */
  lemma NameAddressesItselfExactly(name: string)
    ensures TopLevelKey("/" + name) == Some(name) <==> Plain(name)
  {
    assert ("/" + name)[1..] == name;
    OnePieceExactly(name);
    UnescapeExactly(name);
  }
}
