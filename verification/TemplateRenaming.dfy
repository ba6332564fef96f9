/** Renaming of a template in place: its name, its index patterns, the component templates it is
    composed of and its aliases, wherever the kind of template keeps them. */
module TemplateRenaming {
  import opened Basics
  import opened RestoreRenaming

  /** The "template" section of a template; `others` says whether it holds settings or mappings. */
  datatype Section = Section(aliases: Option<Aliases>, others: bool)

  /** The settings of a template, as a dictionary whose keys may be missing. */
  datatype Settings = Settings(
    indexPatterns: Option<seq<string>>,
    composedOf: Option<seq<string>>,
    section: Option<Section>,
    aliases: Option<Aliases>,
    others: bool)

  /** A template document: its name, its own settings, and those under "index_template" or
      "component_template". */
  datatype Document = Document(name: Option<string>, own: Settings, nested: Option<Settings>)

  /** An empty dictionary counts as missing. */
  predicate SectionPresent(s: Settings) {
    s.section.Some? && (s.section.value.aliases.Some? || s.section.value.others)
  }

  predicate UsesNested(d: Document, keyed: bool) {
    && keyed && d.nested.Some?
    && var s := d.nested.value;
       s.indexPatterns.Some? || s.composedOf.Some? || s.section.Some? || s.aliases.Some? || s.others
  }

  function Inner(d: Document, keyed: bool): Settings {
    if UsesNested(d, keyed) then d.nested.value else d.own
  }

  function WithInner(d: Document, keyed: bool, s: Settings): Document {
    if UsesNested(d, keyed) then d.(nested := Some(s)) else d.(own := s)
  }

  // ----- The renamed document -----

  function RenamedNames(names: seq<string>, p: string, q: string): seq<string> {
    seq(|names|, i requires 0 <= i < |names| => Rename(names[i], p, q))
  }

  function RenamedList(names: Option<seq<string>>, p: string, q: string): Option<seq<string>> {
    if names.Some? then Some(RenamedNames(names.value, p, q)) else None
  }

  function OrEmpty(aliases: Option<Aliases>): Aliases {
    if aliases.Some? then aliases.value else []
  }

  /** The aliases of the settings: in the section if there is one, else directly. */
  function AliasesOf(s: Settings): Aliases {
    if SectionPresent(s) then OrEmpty(s.section.value.aliases) else OrEmpty(s.aliases)
  }

  function WithAliases(s: Settings, d: Aliases): Settings {
    if SectionPresent(s) then s.(section := Some(s.section.value.(aliases := Some(d)))) else s.(aliases := Some(d))
  }

  function RenamedSettings(s: Settings, p: string, q: string): Settings {
    WithAliases(s.(indexPatterns := RenamedList(s.indexPatterns, p, q), composedOf := RenamedList(s.composedOf, p, q)),
                RenamedAliases(AliasesOf(s), p, q))
  }

  function Renamed(d: Document, keyed: bool, p: string, q: string): Document {
    var name := if d.name.Some? then Some(Rename(d.name.value, p, q)) else None;
    WithInner(d, keyed, RenamedSettings(Inner(d, keyed), p, q)).(name := name)
  }

  // ----- Round trip -----

  /** The document with an empty alias map where it had none. */
  function WithAliasMap(d: Document, keyed: bool): Document {
    WithInner(d, keyed, WithAliases(Inner(d, keyed), AliasesOf(Inner(d, keyed))))
  }

  predicate ListRoundTrips(names: Option<seq<string>>, p: string, q: string) {
    names.Some? ==> forall i | 0 <= i < |names.value| :: RoundTrips(names.value[i], p, q)
  }

  /** Every name in the document survives renaming there and back. */
  predicate NamesRoundTrip(d: Document, keyed: bool, p: string, q: string) {
    var s := Inner(d, keyed);
    && (d.name.Some? ==> RoundTrips(d.name.value, p, q))
    && ListRoundTrips(s.indexPatterns, p, q)
    && ListRoundTrips(s.composedOf, p, q)
    && AliasesRoundTrip(AliasesOf(s), p, q)
  }

  lemma ListBackExactly(names: Option<seq<string>>, p: string, q: string)
    requires p != "" && q != ""
    ensures RenamedList(RenamedList(names, p, q), q, p) == names <==> ListRoundTrips(names, p, q)
  {
    if names.Some? {
      var back := RenamedNames(RenamedNames(names.value, p, q), q, p);
      forall i | 0 <= i < |names.value|
        ensures back[i] == names.value[i] <==> RoundTrips(names.value[i], p, q)
      {
        RenameBackExactly(names.value[i], p, q);
      }
      assert ListRoundTrips(names, p, q) ==> back == names.value;
      assert RenamedList(RenamedList(names, p, q), q, p) == Some(back);
    }
  }

  lemma SettingsBackExactly(s: Settings, p: string, q: string)
    requires p != "" && q != "" && IsDict(AliasesOf(s))
    ensures RenamedSettings(RenamedSettings(s, p, q), q, p) == WithAliases(s, AliasesOf(s)) <==>
            && ListRoundTrips(s.indexPatterns, p, q) && ListRoundTrips(s.composedOf, p, q)
            && AliasesRoundTrip(AliasesOf(s), p, q)
  {
    ListBackExactly(s.indexPatterns, p, q);
    ListBackExactly(s.composedOf, p, q);
    AliasesBackExactly(AliasesOf(s), p, q);
    assert AliasesOf(RenamedSettings(s, p, q)) == RenamedAliases(AliasesOf(s), p, q);
  }

  /** Renaming from p to q and back is the identity, up to an added empty alias map, exactly when
      every name in the document survives. No alias is lost then. */
  lemma TemplateBackExactly(d: Document, keyed: bool, p: string, q: string)
    requires p != "" && q != "" && IsDict(AliasesOf(Inner(d, keyed)))
    ensures Renamed(Renamed(d, keyed, p, q), keyed, q, p) == WithAliasMap(d, keyed) <==> NamesRoundTrip(d, keyed, p, q)
    ensures NamesRoundTrip(d, keyed, p, q) ==>
              |AliasesOf(Inner(Renamed(d, keyed, p, q), keyed))| == |AliasesOf(Inner(d, keyed))|
  {
    SettingsBackExactly(Inner(d, keyed), p, q);
    AliasesBackExactly(AliasesOf(Inner(d, keyed)), p, q);
    if d.name.Some? {
      RenameBackExactly(d.name.value, p, q);
    }
    InnerOfRenamed(d, keyed, p, q);
  }

  lemma InnerOfRenamed(d: Document, keyed: bool, p: string, q: string)
    ensures Inner(Renamed(d, keyed, p, q), keyed) == RenamedSettings(Inner(d, keyed), p, q)
    ensures UsesNested(Renamed(d, keyed, p, q), keyed) == UsesNested(d, keyed)
  {
  }

  const NO_SETTINGS := Settings(None, None, None, None, false)

  /** What stays: the settings that are not looked at, and in those that are, everything but the lists and the
      aliases. Settings under the key that are empty, like an empty section, count as missing. */
  lemma RenamesOnlyWhereItLooks(d: Document, keyed: bool, p: string, q: string)
    ensures var r := Renamed(d, keyed, p, q);
            if keyed && d.nested.Some? && d.nested.value != NO_SETTINGS
            then r.own == d.own && r.nested == Some(RenamedSettings(d.nested.value, p, q))
            else r.nested == d.nested && r.own == RenamedSettings(d.own, p, q)
  {
  }

  /** What becomes of an alias map: one that is missing becomes empty. */
  predicate AreRenamed(before: Option<Aliases>, after: Option<Aliases>, p: string, q: string) {
    after == Some(if before.Some? then RenamedAliases(before.value, p, q) else [])
  }

  lemma RenamesAliasesWhereTheyAre(s: Settings, p: string, q: string)
    ensures var r := RenamedSettings(s, p, q);
            && r.others == s.others
            && if s.section.Some? && s.section.value != Section(None, false)
               then r.aliases == s.aliases && r.section.Some? && r.section.value.others == s.section.value.others
                    && AreRenamed(s.section.value.aliases, r.section.value.aliases, p, q)
               else r.section == s.section && AreRenamed(s.aliases, r.aliases, p, q)
  {
  }

  /** In particular for documents whose names start with p or mention neither p nor q. */
  lemma PlainTemplatesRoundTrip(d: Document, keyed: bool, p: string, q: string)
    requires p != "" && q != "" && forall s: string | Mentions(d, keyed, s) :: Plain(s, p, q)
    ensures NamesRoundTrip(d, keyed, p, q)
  {
    forall s: string | Mentions(d, keyed, s)
      ensures RoundTrips(s, p, q)
    {
      PlainNamesRoundTrip(s, p, q);
    }
    var inner := Inner(d, keyed);
    assert forall i | 0 <= i < |AliasesOf(inner)| :: Mentions(d, keyed, AliasesOf(inner)[i].name);
    assert inner.indexPatterns.Some? ==> forall i | 0 <= i < |inner.indexPatterns.value| ::
            Mentions(d, keyed, inner.indexPatterns.value[i]);
    assert inner.composedOf.Some? ==> forall i | 0 <= i < |inner.composedOf.value| ::
            Mentions(d, keyed, inner.composedOf.value[i]);
    assert d.name.Some? ==> Mentions(d, keyed, d.name.value);
  }

  predicate Plain(s: string, p: string, q: string) {
    HasPrefix(s, p) || (!Contains(s, p) && !Contains(s, q))
  }

  predicate Mentions(d: Document, keyed: bool, s: string) {
    var inner := Inner(d, keyed);
    || d.name == Some(s)
    || (inner.indexPatterns.Some? && s in inner.indexPatterns.value)
    || (inner.composedOf.Some? && s in inner.composedOf.value)
    || exists a <- AliasesOf(inner) :: a.name == s
  }

  lemma {:induction false} PutName(d: Aliases, a: Alias, name: string)
    ensures HasName(Put(d, a), name) <==> HasName(d, name) || a.name == name
  {
    if d != [] {
      PutName(d[1..], a, name);
      HasNameCons(d[0], d[1..], name);
      HasNameCons(d[0], Put(d[1..], a), name);
      HasNameCons(a, d[1..], name);
      assert d == [d[0]] + d[1..];
    }
  }

  predicate HasName(d: Aliases, name: string) {
    exists a <- d :: a.name == name
  }

  lemma HasNameCons(a: Alias, d: Aliases, name: string)
    ensures HasName([a] + d, name) <==> a.name == name || HasName(d, name)
  {
    if a.name == name {
      assert a in [a] + d;
    }
  }

  lemma {:induction false} RenamedAliasNames(done: Aliases, d: Aliases, p: string, q: string, t: string)
    ensures HasName(PutRenamed(done, d, p, q), t) <==> HasName(done, t) || exists a <- d :: Rename(a.name, p, q) == t
    decreases |d|
  {
    if d != [] {
      PutName(done, RenameAlias(d[0], p, q), t);
      RenamedAliasNames(Put(done, RenameAlias(d[0], p, q)), d[1..], p, q, t);
      assert d == [d[0]] + d[1..];
    }
  }

  lemma RenamedListNames(names: Option<seq<string>>, p: string, q: string, t: string)
    ensures (names.Some? && exists s <- names.value :: Rename(s, p, q) == t) <==>
            (RenamedList(names, p, q).Some? && t in RenamedList(names, p, q).value)
  {
    if names.Some? {
      var renamed := RenamedNames(names.value, p, q);
      if s :| s in names.value && Rename(s, p, q) == t {
        var i :| 0 <= i < |names.value| && names.value[i] == s;
        assert renamed[i] == t;
      }
    }
  }

  /** A renamed document mentions exactly the renamed names. */
  lemma MentionsExactly(d: Document, keyed: bool, p: string, q: string, t: string)
    ensures Mentions(Renamed(d, keyed, p, q), keyed, t) <==> exists s: string | Mentions(d, keyed, s) ::
            Rename(s, p, q) == t
  {
    var inner, renamed := Inner(d, keyed), Inner(Renamed(d, keyed, p, q), keyed);
    InnerOfRenamed(d, keyed, p, q);
    RenamedListNames(inner.indexPatterns, p, q, t);
    RenamedListNames(inner.composedOf, p, q, t);
    RenamedAliasNames([], AliasesOf(inner), p, q, t);
    assert AliasesOf(renamed) == RenamedAliases(AliasesOf(inner), p, q);
    assert HasName(AliasesOf(renamed), t) <==> exists a <- AliasesOf(inner) :: Rename(a.name, p, q) == t;
    if a :| a in AliasesOf(inner) && Rename(a.name, p, q) == t {
      assert Mentions(d, keyed, a.name);
    }
  }

  // ----- In place -----

  method RenameList(names: seq<string>, p: string, q: string) returns (renamed: seq<string>)
    ensures renamed == RenamedNames(names, p, q)
  {
    renamed := [];
    for i := 0 to |names|
      invariant renamed == RenamedNames(names[..i], p, q)
    {
      renamed := renamed + [Rename(names[i], p, q)];
      assert names[..i + 1] == names[..i] + [names[i]];
    }
    assert names[..|names|] == names;
  }

  method RenameIndexAliases(aliases: Option<Aliases>, p: string, q: string) returns (renamed: Aliases)
    ensures renamed == RenamedAliases(OrEmpty(aliases), p, q)
  {
    renamed := [];
    var d := OrEmpty(aliases);
    for i := 0 to |d|
      invariant PutRenamed(renamed, d[i..], p, q) == RenamedAliases(d, p, q)
    {
      renamed := Put(renamed, RenameAlias(d[i], p, q));
      assert d[i..][1..] == d[i + 1..];
    }
  }

  method RenameSettings(s: Settings, p: string, q: string) returns (inner: Settings)
    ensures inner == RenamedSettings(s, p, q)
  {
    inner := s;
    if inner.indexPatterns.Some? {
      var patterns := RenameList(inner.indexPatterns.value, p, q);
      inner := inner.(indexPatterns := Some(patterns));
    }
    if inner.composedOf.Some? {
      var templates := RenameList(inner.composedOf.value, p, q);
      inner := inner.(composedOf := Some(templates));
    }
    if SectionPresent(inner) {
      var aliases := RenameIndexAliases(inner.section.value.aliases, p, q);
      inner := inner.(section := Some(inner.section.value.(aliases := Some(aliases))));
    } else {
      var aliases := RenameIndexAliases(inner.aliases, p, q);
      inner := inner.(aliases := Some(aliases));
    }
  }

  class Template {
    var name: Option<string>
    var own: Settings
    var nested: Option<Settings>

    function Value(): Document
      reads this
    {
      Document(name, own, nested)
    }

    constructor (d: Document)
      ensures Value() == d
    {
      name, own, nested := d.name, d.own, d.nested;
    }

    /** Renames this template; `keyed` when its settings are looked for one level down. */
    method RenameTemplate(p: string, q: string, keyed: bool)
      requires p != ""
      modifies this
      ensures Value() == Renamed(old(Value()), keyed, p, q)
    {
      if name.Some? && name.value != "" {
        name := Some(Rename(name.value, p, q));
      }
      if UsesNested(Value(), keyed) {
        var inner := RenameSettings(nested.value, p, q);
        nested := Some(inner);
      } else {
        own := RenameSettings(own, p, q);
      }
    }
  }
}
