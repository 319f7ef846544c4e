/** Join codes: one per open lobby, found by code and by campaign. */
module LobbyDirectory {
  import opened Basics

  const CODE_LENGTH := 4

  /** The capital letters and digits a join code is made of, without look-alikes. */
  const ALPHABET: Bytes := [
    0x41, 0x42, 0x43, 0x44, 0x45, 0x46, 0x47, 0x48, 0x4A, 0x4B, 0x4C, 0x4D, 0x4E, 0x50, 0x51, 0x52, 0x53, 0x54, 0x55,
    0x56, 0x57, 0x58, 0x59, 0x5A, 0x32, 0x33, 0x34, 0x35, 0x36, 0x37, 0x38, 0x39]

  datatype Alias = Alias(code: Id, campaign: Id, party: nat, names: map<Id, Id>)

  function Upper(b: byte): byte { if 97 <= b <= 122 then b - 32 else b }

  function UpperAll(s: Bytes): (u: Bytes)
    ensures |u| == |s|
  {
    seq(|s|, i requires 0 <= i < |s| => Upper(s[i]))
  }

  predicate InAlphabet(s: Bytes) { forall i :: 0 <= i < |s| ==> s[i] in ALPHABET }

  /** A code is taken in either case and kept in capitals. */
  function Normalize(s: Bytes): Option<Id> {
    if |s| == CODE_LENGTH && InAlphabet(UpperAll(s)) then Some(UpperAll(s)) else None
  }

  lemma AlphabetIsUpper(b: byte)
    requires b in ALPHABET
    ensures Upper(b) == b
  {
  }

  /** A character of a join code: a letter in either case but I and O, or a digit from 2. */
  predicate CodeCharacter(b: byte) {
    50 <= b <= 57 || (65 <= b <= 90 && b != 73 && b != 79) || (97 <= b <= 122 && b != 105 && b != 111)
  }

  lemma InTheAlphabet(b: byte)
    requires CodeCharacter(b)
    ensures Upper(b) in ALPHABET
  {
    var u := Upper(b);
    var k := if u <= 57 then u - 26 else if u <= 72 then u - 65 else if u <= 78 then u - 66 else u - 67;
    assert ALPHABET[k] == u;
  }

  lemma CodeCharacterIff(b: byte)
    ensures Upper(b) in ALPHABET <==> CodeCharacter(b)
  {
    if CodeCharacter(b) {
      InTheAlphabet(b);
    }
  }

  /** Exactly four such characters are a code, which is kept in capitals. */
  lemma NormalizeIff(s: Bytes)
    ensures Normalize(s).Some? <==> |s| == 4 && forall i :: 0 <= i < |s| ==> CodeCharacter(s[i])
    ensures Normalize(s).Some? ==>
              && |Normalize(s).value| == 4
              && forall i :: 0 <= i < 4 ==>
                   Normalize(s).value[i] == if 97 <= s[i] <= 122 then s[i] - 32 else s[i]
  {
    hide Upper;
    forall i | 0 <= i < |s| ensures UpperAll(s)[i] in ALPHABET <==> CodeCharacter(s[i]) {
      CodeCharacterIff(s[i]);
    }
    forall i | 0 <= i < |s| ensures UpperAll(s)[i] == if 97 <= s[i] <= 122 then s[i] - 32 else s[i] {
      UpperIs(s[i]);
    }
  }

  lemma UpperIs(b: byte)
    ensures Upper(b) == if 97 <= b <= 122 then b - 32 else b
  {
  }

  /** Normalising what is normal already changes nothing. */
  lemma NormalizeTwice(s: Bytes)
    ensures Normalize(s).Some? ==> Normalize(Normalize(s).value) == Normalize(s)
  {
    if Normalize(s).Some? {
      var u := Normalize(s).value;
      forall i | 0 <= i < |u| ensures Upper(u[i]) == u[i] {
        AlphabetIsUpper(u[i]);
      }
      assert UpperAll(u) == u;
    }
  }

  method NormalizeCampaignJoinCode(s: Bytes) returns (normalized: Option<Id>)
    ensures normalized == Normalize(s)
  {
    if |s| != CODE_LENGTH {
      return None;
    }
    var result: Bytes := [];
    for n := 0 to |s|
      invariant result == UpperAll(s)[..n] && InAlphabet(result)
    {
      var value := Upper(s[n]);
      if value !in ALPHABET {
        assert UpperAll(s)[n] == value;
        return None;
      }
      result := result + [value];
    }
    assert UpperAll(s)[..|s|] == UpperAll(s);
    return Some(result);
  }

  /** The first generated code, within the attempts, that is a code and not taken. */
  function Usable(byCode: map<Id, Alias>, codes: seq<Id>): Option<Id> {
    if codes == [] then None
    else
      var code := Normalize(codes[0]);
      if code.Some? && code.value !in byCode then code else Usable(byCode, codes[1..])
  }

  /** A code is chosen iff it was generated, is a code, and neither it nor any code
      generated before it could be chosen earlier. */
  lemma {:induction false} UsableIff(byCode: map<Id, Alias>, codes: seq<Id>, code: Id)
    ensures Usable(byCode, codes) == Some(code) <==>
            exists k :: 0 <= k < |codes| && IsFirst(byCode, codes, k) && Normalize(codes[k]) == Some(code)
    ensures Usable(byCode, codes).None? <==> forall k :: 0 <= k < |codes| ==> !Free(byCode, codes[k])
  {
    hide Normalize;
    if codes != [] {
      var rest := codes[1..];
      UsableIff(byCode, rest, code);
      if !Free(byCode, codes[0]) {
        forall k | 0 <= k < |rest| ensures IsFirst(byCode, codes, k + 1) <==> IsFirst(byCode, rest, k) {
          assert forall j :: 0 < j <= k ==> codes[j] == rest[j - 1];
          assert forall j :: 0 <= j < k ==> rest[j] == codes[j + 1];
        }
      } else {
        assert IsFirst(byCode, codes, 0);
      }
    }
  }

  /** A generated code that is a code and leads to no lobby yet. */
  predicate Free(byCode: map<Id, Alias>, code: Id) { Normalize(code).Some? && Normalize(code).value !in byCode }

  predicate IsFirst(byCode: map<Id, Alias>, codes: seq<Id>, k: nat)
    requires k < |codes|
  {
    Free(byCode, codes[k]) && forall j :: 0 <= j < k ==> !Free(byCode, codes[j])
  }

  /** The two maps are exact inverses of each other. */
  ghost predicate Inverse(byCode: map<Id, Alias>, codeByCampaign: map<Id, Id>) {
    && (forall c :: c in byCode ==>
          && byCode[c].code == c && Normalize(c) == Some(c) && byCode[c].campaign != []
          && byCode[c].campaign in codeByCampaign && codeByCampaign[byCode[c].campaign] == c)
    && (forall m :: m in codeByCampaign ==> codeByCampaign[m] in byCode && byCode[codeByCampaign[m]].campaign == m)
  }

  class CampaignLobbyDirectory {
    const attempts: nat
    var byCode: map<Id, Alias>
    var codeByCampaign: map<Id, Id>

    constructor (maximumAttempts: nat)
      ensures attempts == maximumAttempts && byCode == map[] && codeByCampaign == map[] && Valid()
    {
      attempts := maximumAttempts;
      byCode, codeByCampaign := map[], map[];
    }

    ghost predicate Valid()
      reads this
    {
      Inverse(byCode, codeByCampaign)
    }

    /** Opens a lobby: an open one keeps its code and takes the new party; a new one
        gets the first usable generated code; nothing else changes. */
    method Allocate(campaign: Id, party: nat, codes: seq<Id>) returns (code: Option<Id>)
      requires Valid() && |codes| >= attempts
      modifies this
      ensures Valid()
      ensures campaign == [] ==> code == None
      ensures campaign != [] && campaign in old(codeByCampaign) ==>
                && code == Some(old(codeByCampaign)[campaign]) && codeByCampaign == old(codeByCampaign)
                && byCode == old(byCode)[code.value := old(byCode)[code.value].(party := party)]
      ensures campaign != [] && campaign !in old(codeByCampaign) ==> code == Usable(old(byCode), codes[..attempts])
      ensures campaign != [] && campaign !in old(codeByCampaign) && code.Some? ==>
                && byCode == old(byCode)[code.value := Alias(code.value, campaign, party, map[])]
                && codeByCampaign == old(codeByCampaign)[campaign := code.value]
      ensures code.None? ==> byCode == old(byCode) && codeByCampaign == old(codeByCampaign)
    {
      if campaign == [] {
        return None;
      }
      if campaign in codeByCampaign {
        var known := codeByCampaign[campaign];
        byCode := byCode[known := byCode[known].(party := party)];
        return Some(known);
      }
      for attempt := 0 to attempts
        invariant byCode == old(byCode) && codeByCampaign == old(codeByCampaign)
        invariant Usable(byCode, codes[..attempts]) == Usable(byCode, codes[attempt..attempts])
      {
        assert codes[attempt..attempts][1..] == codes[attempt + 1..attempts];
        var normalized := NormalizeCampaignJoinCode(codes[attempt]);
        if normalized.Some? && normalized.value !in byCode {
          NormalizeTwice(codes[attempt]);
          codeByCampaign := codeByCampaign[campaign := normalized.value];
          byCode := byCode[normalized.value := Alias(normalized.value, campaign, party, map[])];
          return normalized;
        }
      }
      return None;
    }

    method Resolve(typed: Bytes) returns (lobby: Option<Alias>)
      ensures lobby ==
              if Normalize(typed).Some? && Normalize(typed).value in byCode
              then Some(byCode[Normalize(typed).value]) else None
    {
      var code := NormalizeCampaignJoinCode(typed);
      lobby := if code.Some? && code.value in byCode then Some(byCode[code.value]) else None;
    }

    /** Closes a lobby in both maps and leaves every other one alone. */
    method Invalidate(campaign: Id)
      requires Valid()
      modifies this
      ensures Valid()
      ensures codeByCampaign == old(codeByCampaign) - {campaign}
      ensures byCode == old(byCode) -
                (if campaign in old(codeByCampaign) then {old(codeByCampaign)[campaign]} else {})
    {
      if campaign in codeByCampaign {
        byCode := byCode - {codeByCampaign[campaign]};
        codeByCampaign := codeByCampaign - {campaign};
      }
    }

    /** `name` is the normalised name, when the given one has a normal form. */
    method RememberDisplayName(campaign: Id, player: Id, name: Option<Id>)
      requires Valid()
      modifies this`byCode
      ensures Valid()
      ensures byCode ==
              if player != [] && name.Some? && campaign in codeByCampaign
              then var c := codeByCampaign[campaign];
                   old(byCode)[c := old(byCode)[c].(names := old(byCode)[c].names[player := name.value])]
              else old(byCode)
    {
      if player != [] && name.Some? && campaign in codeByCampaign {
        var c := codeByCampaign[campaign];
        byCode := byCode[c := byCode[c].(names := byCode[c].names[player := name.value])];
      }
    }
  }

  /** Two campaigns never share a code, and a code typed in either case leads back to
      the one campaign it was given to. */
  lemma CodesTellCampaigns(byCode: map<Id, Alias>, codeByCampaign: map<Id, Id>, a: Id, b: Id, typed: Bytes)
    requires Inverse(byCode, codeByCampaign) && a in codeByCampaign && b in codeByCampaign
    ensures a != b ==> codeByCampaign[a] != codeByCampaign[b]
    ensures |typed| == CODE_LENGTH && UpperAll(typed) == codeByCampaign[a] ==>
              && Normalize(typed) == Some(codeByCampaign[a]) && byCode[Normalize(typed).value].campaign == a
  {
    var code := codeByCampaign[a];
    assert Normalize(code) == Some(code);
    assert UpperAll(code) == code;
    assert codeByCampaign[b] in byCode;
  }
}
