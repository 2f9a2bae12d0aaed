// Profile lists: the normaliser of the management server, the validator and the membership test of
// the router's installer, and what each accepts of the other.
module Profiles {
  import opened Strings
  import opened Policy

  predicate IsWordChar(c: char) {
    'A' <= c <= 'Z' || 'a' <= c <= 'z' || '0' <= c <= '9' || c == '_'
  }

  predicate IsLabelChar(c: char) {
    IsWordChar(c) || c == '.' || c == '-'
  }

  predicate IsLabel(s: string) {
    s != "" && forall c | c in s :: IsLabelChar(c)
  }

  // ---------------------------------------------------------------- the server's normaliser

  predicate IsProfileText(s: string) {
    s != "" && forall c | c in s :: IsLabelChar(c) || c == ','
  }

  predicate IsAllowed(p: string) {
    p == "core" || p == "clients" || p == "traffic" || p == "wifi_mesh" || p == "dpi" || p == "full"
  }

  // Every part stripped, the empty ones left out.
  function Trimmed(parts: seq<string>): seq<string> {
    if parts == [] then []
    else (if Strip(parts[0]) == "" then [] else [Strip(parts[0])]) + Trimmed(parts[1..])
  }

  predicate AllAllowed(parts: seq<string>) {
    forall p | p in parts :: IsAllowed(p)
  }

  function Normalize(raw: string): Verdict<string> {
    var profile := Strip(if raw == "" then "core" else raw);
    var parts := Trimmed(Split(profile, ','));
    if !IsProfileText(profile) then Rejected(BadCharacters)
    else if parts == [] then Rejected(EmptyProfile)
    else if !AllAllowed(parts) then Rejected(UnknownProfile)
    else if "full" in parts && |parts| > 1 then Rejected(FullCombined)
    else Accepted(Join(parts, ','))
  }

  // ---------------------------------------------------------------- the installer's validator

  predicate IsListText(s: string) {
    forall c | c in s :: IsWordChar(c) || c == ','
  }

  predicate IsInstallable(p: string) {
    p == "core" || p == "traffic" || p == "wifi_mesh" || p == "dpi" || p == "clients" || p == "netflow"
  }

  predicate TokenAccepted(p: string, list: string) {
    IsInstallable(p) || (p == "full" && list == "full")
  }

  // A list the installer goes on with: no empty entry, every entry a known profile, full only alone.
  predicate ShellAccepts(list: string) {
    IsListText(list) && "" !in Split(list, ',') && forall p | p in Split(list, ',') :: TokenAccepted(p, list)
  }

  // The validating case and the loop over the tokens that IFS=, makes of a list without gaps.
  method CheckProfiles(list: string) returns (r: Verdict<string>)
    ensures r.Accepted? <==> ShellAccepts(list)
    ensures r.Accepted? ==> r.value == list
    ensures r == Rejected(FullCombined) ==> "full" in Split(list, ',') && list != "full"
  {
    GapIsEmptyEntry(list, ',');
    if !IsListText(list) || HasGap(list, ',') {
      return Rejected(UnknownProfile);
    }
    var tokens := Split(list, ',');
    var i := 0;
    while i < |tokens|
      invariant i <= |tokens|
      invariant forall k | 0 <= k < i :: TokenAccepted(tokens[k], list)
    {
      var token := tokens[i];
      assert token in tokens;
      if token == "full" {
        if list != "full" {
          return Rejected(FullCombined);
        }
      } else if !IsInstallable(token) {
        return Rejected(UnknownProfile);
      }
      i := i + 1;
    }
    r := Accepted(list);
  }

  predicate ProfileEnabled(list: string, profile: string) {
    Occurs(Wrapped("full", ','), Wrapped(list, ',')) || Occurs(Wrapped(profile, ','), Wrapped(list, ','))
  }

  // ---------------------------------------------------------------- the two agree

  lemma AllowedText(p: string)
    requires IsAllowed(p)
    ensures p != "" && IsListText(p) && ',' !in p && Strip(p) == p
    ensures p == "full" || IsInstallable(p)
  {
    assert NoSpace(p);
    StripNothing(p);
  }

  lemma ListTextStripped(list: string)
    requires list != "" && IsListText(list)
    ensures IsProfileText(list) && Strip(list) == list
  {
    assert NoSpace(list);
    StripNothing(list);
  }

  lemma {:induction false} TrimmedAllowed(parts: seq<string>)
    requires AllAllowed(parts)
    ensures Trimmed(parts) == parts
    decreases |parts|
  {
    if parts != [] {
      assert parts[0] in parts && parts == [parts[0]] + parts[1..];
      AllowedText(parts[0]);
      assert forall p | p in parts[1..] :: p in parts;
      TrimmedAllowed(parts[1..]);
    }
  }

  lemma JoinedText(parts: seq<string>)
    requires parts != [] && AllAllowed(parts)
    ensures Split(Join(parts, ','), ',') == parts && IsListText(Join(parts, ','))
    ensures "" !in parts && Join(parts, ',') != ""
  {
    assert parts[0] in parts && Split("", ',') == [""];
    forall p | p in parts ensures p != "" && IsListText(p) && ',' !in p {
      AllowedText(p);
    }
    SplitJoin(parts, ',');
    forall c | c in Join(parts, ',') ensures IsWordChar(c) || c == ',' {
      JoinChars(parts, ',', c);
    }
  }

  // The lists the normaliser leaves alone: non-empty, of allowed names, full only by itself.
  lemma NormalForm(parts: seq<string>)
    requires parts != [] && AllAllowed(parts) && ("full" in parts ==> |parts| == 1)
    ensures Normalize(Join(parts, ',')) == Accepted(Join(parts, ','))
  {
    var list := Join(parts, ',');
    JoinedText(parts);
    ListTextStripped(list);
    TrimmedAllowed(parts);
  }

  lemma NormalizedParts(raw: string) returns (parts: seq<string>)
    requires Normalize(raw).Accepted?
    ensures parts != [] && AllAllowed(parts) && ("full" in parts ==> |parts| == 1)
    ensures Normalize(raw).value == Join(parts, ',')
  {
    parts := Trimmed(Split(Strip(if raw == "" then "core" else raw), ','));
  }

  lemma NormalizeIdempotent(raw: string)
    requires Normalize(raw).Accepted?
    ensures Normalize(Normalize(raw).value) == Normalize(raw)
  {
    var parts := NormalizedParts(raw);
    NormalForm(parts);
  }

  // Whatever the server sends as the profile, the installer accepts.
  lemma NormalizedIsAccepted(raw: string)
    requires Normalize(raw).Accepted?
    ensures ShellAccepts(Normalize(raw).value) && "netflow" !in Split(Normalize(raw).value, ',')
  {
    var parts := NormalizedParts(raw);
    JoinedText(parts);
    var list := Join(parts, ',');
    forall p | p in parts ensures TokenAccepted(p, list) && p != "netflow" {
      AllowedText(p);
    }
  }

  // The normal forms are exactly the lists the installer accepts that do not name netflow, a
  // profile the server does not know.
  lemma NormalFormsAreInstallable(list: string)
    ensures Normalize(list) == Accepted(list) <==> ShellAccepts(list) && "netflow" !in Split(list, ',')
  {
    if Normalize(list) == Accepted(list) {
      NormalizedIsAccepted(list);
    }
    if ShellAccepts(list) && "netflow" !in Split(list, ',') {
      var parts := Split(list, ',');
      assert AllAllowed(parts);
      if "full" in parts {
        assert TokenAccepted("full", list);
        SplitNone("full", ',');
      }
      JoinSplit(list, ',');
      NormalForm(parts);
    }
  }

  // The substring test in the installer is membership, and full stands for every profile.
  lemma EnabledIsMember(list: string, profile: string)
    requires ShellAccepts(list) && ',' !in profile
    ensures ProfileEnabled(list, profile) <==> list == "full" || profile in Split(list, ',')
  {
    EntryIsSubstring("full", list, ',');
    EntryIsSubstring(profile, list, ',');
    SplitNone("full", ',');
    if "full" in Split(list, ',') {
      assert TokenAccepted("full", list);
    }
  }

  // The parts a request names, and the list they make.
  function Requested(raw: string): seq<string> {
    Trimmed(Split(Strip(if raw == "" then "core" else raw), ','))
  }

  // The parts of a request in their order, each stripped, without the empty ones.
  lemma {:induction false} TrimmedInOrder(first: seq<string>, part: string, later: seq<string>)
    ensures Trimmed(first + [part] + later) == Trimmed(first) + (if Strip(part) == "" then [] else [Strip(part)]) + Trimmed(later)
    decreases |first|
  {
    if first == [] {
      assert ([part] + later)[1..] == later && first + [part] + later == [part] + later;
    } else {
      assert (first + [part] + later)[1..] == first[1..] + [part] + later;
      TrimmedInOrder(first[1..], part, later);
    }
  }

  lemma {:induction false} TrimmedHasNoComma(parts: seq<string>)
    requires forall p | p in parts :: ',' !in p
    ensures forall p | p in Trimmed(parts) :: ',' !in p
    decreases |parts|
  {
    if parts != [] {
      assert parts[0] in parts && forall p | p in parts[1..] :: p in parts;
      StripChars(parts[0]);
      TrimmedHasNoComma(parts[1..]);
    }
  }

  lemma TextOfParts(raw: string)
    requires Requested(raw) != []
    ensures IsProfileText(Strip(if raw == "" then "core" else raw))
       <==> forall c | c in Strip(raw) :: '0' <= c <= '9' || 'A' <= c <= 'Z' || 'a' <= c <= 'z' || c in "._-,"
  {
    assert Split("", ',') == [""] && Trimmed([""]) == [];
    if raw == "" {
      StripNothing("core");
    }
  }

  // The server accepts exactly the requests, in its characters, whose list the installer accepts and
  // that do not ask for netflow, and passes on what was requested.
  lemma AcceptedIfInstallable(raw: string)
    ensures Normalize(raw).Accepted?
       <==> (forall c | c in Strip(raw) :: '0' <= c <= '9' || 'A' <= c <= 'Z' || 'a' <= c <= 'z' || c in "._-,")
            && Requested(raw) != [] && "netflow" !in Requested(raw)
            && ShellAccepts(Join(Requested(raw), ','))
    ensures Normalize(raw).Accepted? ==> Split(Normalize(raw).value, ',') == Requested(raw)
  {
    if Requested(raw) != [] {
      TextOfParts(raw);
    }
    SplitParts(Strip(if raw == "" then "core" else raw), ',');
    TrimmedHasNoComma(Split(Strip(if raw == "" then "core" else raw), ','));
    if Requested(raw) != [] {
      SplitJoin(Requested(raw), ',');
    }
    var parts := Requested(raw);
    if Normalize(raw).Accepted? {
      JoinedText(parts);
      NormalizedIsAccepted(raw);
    } else if parts != [] && "netflow" !in parts && ShellAccepts(Join(parts, ',')) {
      SplitParts(Strip(if raw == "" then "core" else raw), ',');
      TrimmedHasNoComma(Split(Strip(if raw == "" then "core" else raw), ','));
      SplitJoin(parts, ',');
      InstallableAllowed(parts);
    }
  }

  lemma TokenAllowed(p: string, list: string)
    requires TokenAccepted(p, list)
    ensures p == "netflow" || IsAllowed(p)
  {
  }

  lemma InstallableAllowed(parts: seq<string>)
    requires parts != [] && "netflow" !in parts && ShellAccepts(Join(parts, ',')) && Split(Join(parts, ','), ',') == parts
    ensures AllAllowed(parts) && ("full" in parts ==> |parts| == 1)
  {
    var list := Join(parts, ',');
    forall p | p in parts ensures IsAllowed(p) {
      assert p in Split(list, ',');
      TokenAllowed(p, list);
    }
    if "full" in parts {
      FullAlone(list);
    }
  }

  lemma FullAlone(list: string)
    requires ShellAccepts(list) && "full" in Split(list, ',')
    ensures Split(list, ',') == ["full"]
  {
    assert TokenAccepted("full", list);
    SplitNone("full", ',');
  }

  // Which profiles run on the router after the server has normalised a request.
  lemma EnabledAfterNormalize(raw: string, profile: string)
    requires Normalize(raw).Accepted? && ',' !in profile
    ensures ProfileEnabled(Normalize(raw).value, profile)
       <==> Trimmed(Split(Strip(if raw == "" then "core" else raw), ',')) == ["full"]
            || profile in Trimmed(Split(Strip(if raw == "" then "core" else raw), ','))
  {
    var parts := Trimmed(Split(Strip(if raw == "" then "core" else raw), ','));
    var list := Join(parts, ',');
    JoinedText(parts);
    NormalizedIsAccepted(raw);
    EnabledIsMember(list, profile);
    SplitNone("full", ',');
  }
}
