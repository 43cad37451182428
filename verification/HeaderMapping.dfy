/**
 Matching CSV headers to lead fields (frontend/lib/lead-fields.ts, `autoMapHeaders`, `toApiColumns`,
 `duplicateMappedFields`). `normalize` stands for `normalizeHeader`.
 */
module HeaderMapping {
  import opened Wrappers
  import opened SampleCsv

  // ---- Which field a header names -------------------------------------------------------------------

  /** The key of the first field that lists this alias. */
  function Match(fields: seq<Field>, alias: string): (r: Option<string>)
    ensures r.Some? ==> exists f :: f in fields && f.key == r.value && alias in f.aliases
    ensures r.None? ==> forall f | f in fields :: alias !in f.aliases
  {
    if fields == [] then None else if alias in fields[0].aliases then Some(fields[0].key) else Match(fields[1..], alias)
  }

  predicate Contains(s: string, part: string) {
    part <= s || (s != "" && Contains(s[1..], part))
  }

  predicate Allowed(fields: seq<Field>, key: string) { exists f | f in fields :: f.key == key }

  /** The looser rule for headers no alias matched. */
  function Fallback(fields: seq<Field>, alias: string): Option<string> {
    if Allowed(fields, "email") && Contains(alias, "email") then Some("email")
    else if Allowed(fields, "first_name") && Contains(alias, "first") then Some("first_name")
    else if Allowed(fields, "last_name") && Contains(alias, "last") then Some("last_name")
    else None
  }

  /** The part stands somewhere in the text. */
  ghost predicate Occurs(s: string, part: string) { exists i: nat :: i <= |s| && part <= s[i..] }

  lemma {:induction false} ContainsIff(s: string, part: string)
    ensures Contains(s, part) <==> Occurs(s, part)
  {
    assert s[0..] == s;
    if s != [] {
      ContainsIff(s[1..], part);
      forall i: nat | i < |s| ensures s[1..][i..] == s[i + 1..] {}
      if Occurs(s, part) {
        var i: nat :| i <= |s| && part <= s[i..];
        if i > 0 { assert part <= s[1..][i - 1..]; }
      }
      if Occurs(s[1..], part) {
        var i: nat :| i <= |s[1..]| && part <= s[1..][i..];
        assert part <= s[i + 1..];
      }
    }
  }

  /** The looser rule, word by word: email before first before last, each only if its field is offered. */
  lemma FallbackIff(fields: seq<Field>, alias: string)
    ensures var email, first, last := Allowed(fields, "email") && Occurs(alias, "email"),
              Allowed(fields, "first_name") && Occurs(alias, "first"),
              Allowed(fields, "last_name") && Occurs(alias, "last");
            && (Fallback(fields, alias) == Some("email") <==> email)
            && (Fallback(fields, alias) == Some("first_name") <==> first && !email)
            && (Fallback(fields, alias) == Some("last_name") <==> last && !first && !email)
            && (Fallback(fields, alias) == None <==> !last && !first && !email)
  {
    ContainsIff(alias, "email");
    ContainsIff(alias, "first");
    ContainsIff(alias, "last");
    hide Contains, Occurs, Allowed;
  }

  lemma FallbackAllowed(fields: seq<Field>, alias: string)
    ensures Fallback(fields, alias).Some? ==> Allowed(fields, Fallback(fields, alias).value)
  {
  }

  /** `h` is the first header naming `key` by an alias. */
  ghost predicate FirstMatch(headers: seq<string>, fields: seq<Field>, normalize: string -> string, h: string,
        key: string) {
    exists i | 0 <= i < |headers| ::
      && headers[i] == h && Match(fields, normalize(h)) == Some(key)
      && forall j | 0 <= j < i :: Match(fields, normalize(headers[j])) != Some(key)
  }

  ghost predicate Injective(mapped: map<string, string>) {
    forall a, b | a in mapped && b in mapped && a != b :: mapped[a] != mapped[b]
  }

  /**
   Each field gets at most one header: the first one an alias names it by, if there is one; a looser match
   is used only for a field no alias claimed. Every choice names an offered field.
   */
  ghost predicate GoodMapping(mapped: map<string, string>, headers: seq<string>, fields: seq<Field>,
        normalize: string -> string) {
    && Injective(mapped)
    && (forall h | h in mapped :: h in headers && Allowed(fields, mapped[h]))
    && (forall h, key | FirstMatch(headers, fields, normalize, h, key) :: h in mapped && mapped[h] == key)
    && (forall h | h in mapped ::
          FirstMatch(headers, fields, normalize, h, mapped[h])
          || (Fallback(fields, normalize(h)) == Some(mapped[h])
              && forall g | g in headers :: Match(fields, normalize(g)) != Some(mapped[h])))
  }

  /** After the first pass: exactly the first matches. */
  ghost predicate ExactPass(mapped: map<string, string>, headers: seq<string>, fields: seq<Field>,
        normalize: string -> string) {
    && (forall h, key | FirstMatch(headers, fields, normalize, h, key) :: h in mapped && mapped[h] == key)
    && (forall h | h in mapped :: FirstMatch(headers, fields, normalize, h, mapped[h]))
  }

  lemma FirstMatchNext(headers: seq<string>, fields: seq<Field>, normalize: string -> string, header: string)
    ensures forall h, key :: FirstMatch(headers + [header], fields, normalize, h, key) <==>
              FirstMatch(headers, fields, normalize, h, key)
              || (h == header && Match(fields, normalize(header)) == Some(key)
                  && forall g | g in headers :: Match(fields, normalize(g)) != Some(key))
  {
    hide Match;
    var more := headers + [header];
    forall h, key ensures FirstMatch(more, fields, normalize, h, key) <==>
              FirstMatch(headers, fields, normalize, h, key)
              || (h == header && Match(fields, normalize(header)) == Some(key)
                  && forall g | g in headers :: Match(fields, normalize(g)) != Some(key))
    {
      if FirstMatch(headers, fields, normalize, h, key) {
        var i :| 0 <= i < |headers| && headers[i] == h && Match(fields, normalize(h)) == Some(key)
          && forall j | 0 <= j < i :: Match(fields, normalize(headers[j])) != Some(key);
        assert more[i] == h;
        forall j | 0 <= j < i ensures Match(fields, normalize(more[j])) != Some(key) { assert more[j] == headers[j]; }
      }
      if FirstMatch(more, fields, normalize, h, key) && !FirstMatch(headers, fields, normalize, h, key) {
        var i :| 0 <= i < |more| && more[i] == h && Match(fields, normalize(h)) == Some(key)
          && forall j | 0 <= j < i :: Match(fields, normalize(more[j])) != Some(key);
        if i < |headers| {
          assert headers[i] == h;
          forall j | 0 <= j < i ensures Match(fields, normalize(headers[j])) != Some(key) {
            assert more[j] == headers[j];
          }
          assert false;
        }
        forall g | g in headers ensures Match(fields, normalize(g)) != Some(key) {
          var j :| 0 <= j < |headers| && headers[j] == g;
          assert more[j] == g;
        }
      }
      if h == header && Match(fields, normalize(header)) == Some(key)
         && forall g | g in headers :: Match(fields, normalize(g)) != Some(key) {
        assert more[|headers|] == h;
        forall j | 0 <= j < |headers| ensures Match(fields, normalize(more[j])) != Some(key) {
          assert more[j] in headers;
        }
      }
    }
  }

  /** Some header of the list names `key` by an alias. */
  ghost predicate Named(headers: seq<string>, fields: seq<Field>, normalize: string -> string, key: string) {
    exists g | g in headers :: Match(fields, normalize(g)) == Some(key)
  }

  /** The state of the first pass: the first matches, and `taken` the fields they name. */
  ghost predicate FirstPass(mapped: map<string, string>, taken: set<string>, headers: seq<string>,
        fields: seq<Field>, normalize: string -> string) {
    && ExactPass(mapped, headers, fields, normalize) && Injective(mapped)
    && (forall h | h in mapped :: h in headers)
    && taken == mapped.Values && forall key :: key in taken <==> Named(headers, fields, normalize, key)
  }

  lemma NamedNext(headers: seq<string>, fields: seq<Field>, normalize: string -> string, h: string)
    ensures forall k :: Named(headers + [h], fields, normalize, k) <==>
              Named(headers, fields, normalize, k) || Match(fields, normalize(h)) == Some(k)
  {
    hide Match;
    forall k ensures Named(headers + [h], fields, normalize, k) <==>
              Named(headers, fields, normalize, k) || Match(fields, normalize(h)) == Some(k)
    {
      if Match(fields, normalize(h)) == Some(k) { assert h in headers + [h]; }
      if Named(headers, fields, normalize, k) {
        var g :| g in headers && Match(fields, normalize(g)) == Some(k);
        assert g in headers + [h];
      }
    }
  }

  /** A header whose field is taken, or that names none, changes nothing. */
  lemma NextHeaderPassed(mapped: map<string, string>, taken: set<string>, headers: seq<string>, fields: seq<Field>,
        normalize: string -> string, h: string)
    requires FirstPass(mapped, taken, headers, fields, normalize)
    requires var key := Match(fields, normalize(h)); key.None? || key.value in taken
    ensures FirstPass(mapped, taken, headers + [h], fields, normalize)
  {
    FirstMatchNext(headers, fields, normalize, h);
    NamedNext(headers, fields, normalize, h);
    hide Match, FirstMatch, Injective;
    assert forall k | Match(fields, normalize(h)) == Some(k) :: Named(headers, fields, normalize, k);
  }

  lemma ClaimIsExact(mapped: map<string, string>, headers: seq<string>, fields: seq<Field>,
        normalize: string -> string, h: string, key: string)
    requires ExactPass(mapped, headers, fields, normalize) && h !in mapped
    requires Match(fields, normalize(h)) == Some(key) && !Named(headers, fields, normalize, key)
    ensures ExactPass(mapped[h := key], headers + [h], fields, normalize)
  {
    FirstMatchNext(headers, fields, normalize, h);
    hide Match, FirstMatch;
    var mapped' := mapped[h := key];
    forall g, k | FirstMatch(headers + [h], fields, normalize, g, k) ensures g in mapped' && mapped'[g] == k {
      if FirstMatch(headers, fields, normalize, g, k) { assert g in mapped; }
    }
    forall g | g in mapped' ensures FirstMatch(headers + [h], fields, normalize, g, mapped'[g]) {
      if g != h { assert FirstMatch(headers, fields, normalize, g, mapped[g]); }
    }
  }

  /** A header naming a free field claims it. */
  lemma NextHeaderClaims(mapped: map<string, string>, taken: set<string>, headers: seq<string>, fields: seq<Field>,
        normalize: string -> string, h: string, key: string)
    requires FirstPass(mapped, taken, headers, fields, normalize)
    requires Match(fields, normalize(h)) == Some(key) && key !in taken
    ensures FirstPass(mapped[h := key], taken + {key}, headers + [h], fields, normalize)
  {
    NamedNext(headers, fields, normalize, h);
    forall g | g in mapped ensures Match(fields, normalize(g)) == Some(mapped[g]) {
    }
    hide Match, FirstMatch, ExactPass, Named;
    NewKey(mapped, h, key);
    ClaimIsExact(mapped, headers, fields, normalize, h, key);
  }

  lemma NewKey(mapped: map<string, string>, h: string, key: string)
    requires h !in mapped && key !in mapped.Values && Injective(mapped)
    ensures Injective(mapped[h := key]) && mapped[h := key].Values == mapped.Values + {key}
  {
    var mapped' := mapped[h := key];
    forall k | k in mapped.Values + {key} ensures k in mapped'.Values {
      if k == key {
        assert mapped'[h] == k;
      } else {
        var g :| g in mapped && mapped[g] == k;
        assert mapped'[g] == k;
      }
    }
  }

  method ExactMatches(headers: seq<string>, fields: seq<Field>, normalize: string -> string)
    returns (mapped: map<string, string>, taken: set<string>)
    ensures FirstPass(mapped, taken, headers, fields, normalize)
  {
    hide FirstPass, Match;
    mapped, taken := map[], {};
    NothingMapped(fields, normalize);
    for i := 0 to |headers|
      invariant FirstPass(mapped, taken, headers[..i], fields, normalize)
    {
      assert headers[..i + 1] == headers[..i] + [headers[i]];
      var key := Match(fields, normalize(headers[i]));
      if key.Some? && key.value !in taken {
        NextHeaderClaims(mapped, taken, headers[..i], fields, normalize, headers[i], key.value);
        mapped := mapped[headers[i] := key.value];
        taken := taken + {key.value};
      } else {
        NextHeaderPassed(mapped, taken, headers[..i], fields, normalize, headers[i]);
      }
    }
    assert headers[..|headers|] == headers;
  }

  lemma NothingMapped(fields: seq<Field>, normalize: string -> string)
    ensures FirstPass(map[], {}, [], fields, normalize)
  {
  }

  lemma AfterFirstPass(mapped: map<string, string>, taken: set<string>, headers: seq<string>, fields: seq<Field>,
        normalize: string -> string)
    requires FirstPass(mapped, taken, headers, fields, normalize)
    ensures GoodMapping(mapped, headers, fields, normalize) && taken == mapped.Values
    ensures forall key | Named(headers, fields, normalize, key) :: key in taken
  {
    hide Fallback;
    forall h | h in mapped ensures Allowed(fields, mapped[h]) {
    }
  }

  /** Claiming a free field for an unmapped header by the looser rule. */
  lemma ClaimLoosely(mapped: map<string, string>, headers: seq<string>, fields: seq<Field>,
        normalize: string -> string, h: string, key: string)
    requires GoodMapping(mapped, headers, fields, normalize) && h in headers && h !in mapped
    requires Fallback(fields, normalize(h)) == Some(key) && key !in mapped.Values
    requires forall k | Named(headers, fields, normalize, k) :: k in mapped.Values
    ensures GoodMapping(mapped[h := key], headers, fields, normalize)
  {
    hide Fallback, FirstMatch, Allowed, Match;
    NewKey(mapped, h, key);
    assert Allowed(fields, key) by { FallbackAllowed(fields, normalize(h)); }
    var mapped' := mapped[h := key];
    assert !Named(headers, fields, normalize, key);
    forall g, k | FirstMatch(headers, fields, normalize, g, k) ensures g in mapped' && mapped'[g] == k {
      assert g in mapped;
    }
    forall g | g in mapped' && g != h ensures mapped'[g] == mapped[g] {}
  }

  /** The second pass has nothing left to do for this header: it is mapped, or its field is taken. */
  ghost predicate Settled(mapped: map<string, string>, fields: seq<Field>, alias: string, h: string) {
    h in mapped || (Fallback(fields, alias).Some? ==> Fallback(fields, alias).value in mapped.Values)
  }

  /** The state of the second pass after `n` headers. */
  ghost predicate SecondPass(mapped: map<string, string>, headers: seq<string>, fields: seq<Field>,
        normalize: string -> string, n: nat)
    requires n <= |headers|
  {
    && GoodMapping(mapped, headers, fields, normalize)
    && (forall key | Named(headers, fields, normalize, key) :: key in mapped.Values)
    && forall j | 0 <= j < n :: Settled(mapped, fields, normalize(headers[j]), headers[j])
  }

  lemma SecondPassClaims(mapped: map<string, string>, headers: seq<string>, fields: seq<Field>,
        normalize: string -> string, n: nat, key: string)
    requires n < |headers| && SecondPass(mapped, headers, fields, normalize, n) && headers[n] !in mapped
    requires Fallback(fields, normalize(headers[n])) == Some(key) && key !in mapped.Values
    ensures SecondPass(mapped[headers[n] := key], headers, fields, normalize, n + 1)
    ensures mapped[headers[n] := key].Values == mapped.Values + {key}
  {
    hide GoodMapping, Named, Fallback;
    ClaimLoosely(mapped, headers, fields, normalize, headers[n], key);
    NewValue(mapped, headers[n], key);
    var mapped' := mapped[headers[n] := key];
    forall j | 0 <= j < n + 1 ensures Settled(mapped', fields, normalize(headers[j]), headers[j]) {
      if j < n { assert Settled(mapped, fields, normalize(headers[j]), headers[j]); }
    }
  }

  lemma SecondPassSkips(mapped: map<string, string>, headers: seq<string>, fields: seq<Field>,
        normalize: string -> string, n: nat)
    requires n < |headers| && SecondPass(mapped, headers, fields, normalize, n)
    requires Settled(mapped, fields, normalize(headers[n]), headers[n])
    ensures SecondPass(mapped, headers, fields, normalize, n + 1)
  {
    hide GoodMapping, Named, Settled;
  }

  method AutoMapHeaders(headers: seq<string>, fields: seq<Field>,
        normalize: string -> string) returns (mapped: map<string, string>)
    ensures GoodMapping(mapped, headers, fields, normalize)
    ensures forall key | Named(headers, fields, normalize, key) :: key in mapped.Values
    ensures forall i | 0 <= i < |headers| :: Settled(mapped, fields, normalize(headers[i]), headers[i])
  {
    var taken: set<string>;
    mapped, taken := ExactMatches(headers, fields, normalize);
    AfterFirstPass(mapped, taken, headers, fields, normalize);
    mapped := LooseMatches(mapped, taken, headers, fields, normalize);
  }

  method LooseMatches(exact: map<string, string>, claimed: set<string>, headers: seq<string>, fields: seq<Field>,
        normalize: string -> string)
    returns (mapped: map<string, string>)
    requires SecondPass(exact, headers, fields, normalize, 0) && claimed == exact.Values
    ensures SecondPass(mapped, headers, fields, normalize, |headers|)
  {
    hide SecondPass, Fallback;
    var taken := claimed;
    mapped := exact;
    for i := 0 to |headers|
      invariant SecondPass(mapped, headers, fields, normalize, i) && taken == mapped.Values
    {
      var key := Fallback(fields, normalize(headers[i]));
      if headers[i] !in mapped && key.Some? && key.value !in taken {
        SecondPassClaims(mapped, headers, fields, normalize, i, key.value);
        mapped := mapped[headers[i] := key.value];
        taken := taken + {key.value};
      } else {
        SecondPassSkips(mapped, headers, fields, normalize, i);
      }
    }
  }

  lemma NewValue(mapped: map<string, string>, h: string, key: string)
    requires h !in mapped
    ensures mapped[h := key].Values == mapped.Values + {key}
  {
    var mapped' := mapped[h := key];
    assert mapped'[h] == key;
    forall g | g in mapped ensures mapped[g] in mapped'.Values { assert mapped'[g] == mapped[g]; }
  }

  // ---- Handing the mapping to the API -----------------------------------------------------------------

  /** One entry of the mapping: a header and the field chosen for it. */
  datatype Entry = Entry(header: string, key: string)

  /** Field to header; a later entry for the same field replaces an earlier one. */
  function ToApiColumns(entries: seq<Entry>): map<string, string> {
    if entries == [] then map[]
    else ToApiColumns(entries[..|entries| - 1])[entries[|entries| - 1].key := entries[|entries| - 1].header]
  }

  ghost predicate ChosenTwice(entries: seq<Entry>, key: string) {
    exists i, j | 0 <= i < j < |entries| :: entries[i].key == key && entries[j].key == key
  }

  method DuplicateMappedFields(entries: seq<Entry>) returns (duplicates: set<string>)
    ensures forall key :: key in duplicates <==> ChosenTwice(entries, key)
  {
    var seen: set<string> := {};
    duplicates := {};
    for n := 0 to |entries|
      invariant forall key :: key in seen <==> exists i | 0 <= i < n :: entries[i].key == key
      invariant forall key :: key in duplicates <==> ChosenTwice(entries[..n], key)
    {
      TwiceNext(entries[..n], entries[n]);
      assert entries[..n + 1] == entries[..n] + [entries[n]];
      if entries[n].key in seen { duplicates := duplicates + {entries[n].key}; }
      seen := seen + {entries[n].key};
    }
    assert entries[..|entries|] == entries;
  }

  lemma TwiceNext(entries: seq<Entry>, e: Entry)
    ensures forall key :: ChosenTwice(entries + [e], key) <==>
              ChosenTwice(entries, key) || (key == e.key && exists i | 0 <= i < |entries| :: entries[i].key == key)
  {
    var more := entries + [e];
    forall key ensures ChosenTwice(more, key) <==>
              ChosenTwice(entries, key) || (key == e.key && exists i | 0 <= i < |entries| :: entries[i].key == key)
    {
      if ChosenTwice(entries, key) {
        var i, j :| 0 <= i < j < |entries| && entries[i].key == key && entries[j].key == key;
        assert more[i].key == key && more[j].key == key;
      }
      if key == e.key && exists i | 0 <= i < |entries| :: entries[i].key == key {
        var i :| 0 <= i < |entries| && entries[i].key == key;
        assert more[i].key == key && more[|entries|].key == key;
      }
      if ChosenTwice(more, key) {
        var i, j :| 0 <= i < j < |more| && more[i].key == key && more[j].key == key;
        assert entries[i].key == key;
        if j < |entries| { assert entries[j].key == key; }
      }
    }
  }

  lemma {:induction false} ColumnIsLast(entries: seq<Entry>, key: string)
    ensures key in ToApiColumns(entries) <==> exists i | 0 <= i < |entries| :: entries[i].key == key
    ensures key in ToApiColumns(entries) ==>
      exists i | 0 <= i < |entries| :: entries[i] == Entry(ToApiColumns(entries)[key], key)
        && forall j | i < j < |entries| :: entries[j].key != key
  {
    if entries != [] {
      var init, last := entries[..|entries| - 1], entries[|entries| - 1];
      ColumnIsLast(init, key);
      if last.key == key {
        assert entries[|entries| - 1] == Entry(ToApiColumns(entries)[key], key);
      } else if key in ToApiColumns(init) {
        var i :| 0 <= i < |init| && init[i] == Entry(ToApiColumns(init)[key], key)
                 && forall j | i < j < |init| :: init[j].key != key;
        assert entries[i] == init[i];
        forall j | i < j < |entries| ensures entries[j].key != key { if j < |init| { assert entries[j] == init[j]; } }
      }
    }
  }

  ghost predicate DistinctHeaders(entries: seq<Entry>) {
    forall i, j | 0 <= i < j < |entries| :: entries[i].header != entries[j].header
  }

  /** The API receives every chosen column exactly when no field was chosen twice: what the duplicate check reports. */
  lemma ColumnsLosslessIff(entries: seq<Entry>)
    requires DistinctHeaders(entries)
    ensures (forall e | e in entries :: e.key in ToApiColumns(entries) && ToApiColumns(entries)[e.key] == e.header)
            <==> forall key :: !ChosenTwice(entries, key)
  {
    var columns := ToApiColumns(entries);
    if forall key :: !ChosenTwice(entries, key) {
      forall i, j | 0 <= i < j < |entries| ensures entries[i].key != entries[j].key {
        assert !ChosenTwice(entries, entries[i].key);
      }
      forall e | e in entries ensures e.key in columns && columns[e.key] == e.header {
        var k :| 0 <= k < |entries| && entries[k] == e;
        ColumnIsLast(entries, e.key);
        var i :| 0 <= i < |entries| && entries[i] == Entry(columns[e.key], e.key);
        assert i == k;
      }
    }
    forall key | ChosenTwice(entries, key)
      ensures exists e :: e in entries && !(e.key in columns && columns[e.key] == e.header)
    {
      ChosenTwiceLoses(entries, key);
    }
  }

  lemma ChosenTwiceLoses(entries: seq<Entry>, key: string)
    requires DistinctHeaders(entries) && ChosenTwice(entries, key)
    ensures exists e :: e in entries && !(e.key in ToApiColumns(entries) && ToApiColumns(entries)[e.key] == e.header)
  {
    var i, j :| 0 <= i < j < |entries| && entries[i].key == key && entries[j].key == key;
    assert entries[i] in entries && entries[j] in entries && entries[i].header != entries[j].header;
  }
}
