/** The roster merge of the professions screen and the three card edits
    built on it: a handler's partial update is spread over every profession
    with the edited id, and nothing else in the roster changes. */
module Roster {
  import opened Wrappers
  import opened Types
  import opened ProfessionXP
  import opened ProfessionValidation
  import opened ProfessionLogic
  import opened ProfessionHelpers

  /** `{...p, ...updates}`: the fields the update sets replace the
      profession's, every other field is kept. */
  function ApplyUpdate(p: Profession, u: Update): (r: Profession)
    ensures r.id == p.id && r.name == p.name && r.category == p.category && r.icon == p.icon
    ensures u.currentLevel.Some? ==> r.currentLevel == u.currentLevel.value
    ensures u.currentLevel.None? ==> r.currentLevel == p.currentLevel
    ensures u.currentXP.Some? ==> r.currentXP == u.currentXP.value
    ensures u.currentXP.None? ==> r.currentXP == p.currentXP
    ensures u.targetLevel.Some? ==> r.targetLevel == u.targetLevel.value
    ensures u.targetLevel.None? ==> r.targetLevel == p.targetLevel
  {
    p.(currentLevel := u.currentLevel.GetOr(p.currentLevel),
       currentXP := u.currentXP.GetOr(p.currentXP),
       targetLevel := u.targetLevel.GetOr(p.targetLevel))
  }

  /** The update that sets nothing. */
  const NoChange := Update(None, None, None)

  /** Spreading `u` and then `v` is spreading their merge, in which a field
      of `v` wins over the same field of `u`. */
  function Merge(u: Update, v: Update): Update
  {
    Update(if v.currentLevel.Some? then v.currentLevel else u.currentLevel,
           if v.currentXP.Some? then v.currentXP else u.currentXP,
           if v.targetLevel.Some? then v.targetLevel else u.targetLevel)
  }

  /** Spreading nothing is the identity, spreading twice is spreading once,
      and consecutive spreads compose as a merge. */
  lemma ApplyUpdateLaws(p: Profession, u: Update, v: Update)
    ensures ApplyUpdate(p, NoChange) == p
    ensures ApplyUpdate(ApplyUpdate(p, u), u) == ApplyUpdate(p, u)
    ensures ApplyUpdate(ApplyUpdate(p, u), v) == ApplyUpdate(p, Merge(u, v))
  {
  }

  /** `updateProfession`: `professions.map(p => p.id === id ? {...p, ...updates} : p)`. */
  function UpdateProfession(ps: seq<Profession>, id: string, u: Update): (r: seq<Profession>)
    ensures |r| == |ps|
    ensures forall i :: 0 <= i < |ps| && ps[i].id != id ==> r[i] == ps[i]
    ensures forall i :: 0 <= i < |ps| && ps[i].id == id ==> r[i] == ApplyUpdate(ps[i], u)
    ensures forall i :: 0 <= i < |ps| ==> r[i].id == ps[i].id
  {
    if |ps| == 0 then []
    else
      var head := if ps[0].id == id then ApplyUpdate(ps[0], u) else ps[0];
      [head] + UpdateProfession(ps[1..], id, u)
  }

  /** An update for an id nobody has leaves the roster as it is, and so
      does an update that sets nothing. */
  lemma UpdateWithoutEffect(ps: seq<Profession>, id: string, u: Update)
    ensures (forall p :: p in ps ==> p.id != id) ==> UpdateProfession(ps, id, u) == ps
    ensures UpdateProfession(ps, id, NoChange) == ps
  {
    var r := UpdateProfession(ps, id, u);
    if forall p :: p in ps ==> p.id != id {
      assert forall i :: 0 <= i < |ps| ==> r[i] == ps[i] by {
        forall i | 0 <= i < |ps| ensures r[i] == ps[i] {
          assert ps[i] in ps;
        }
      }
    }
    var r0 := UpdateProfession(ps, id, NoChange);
    assert forall i :: 0 <= i < |ps| ==> r0[i] == ps[i] by {
      forall i | 0 <= i < |ps| ensures r0[i] == ps[i] {
        ApplyUpdateLaws(ps[i], NoChange, NoChange);
      }
    }
  }

  /** Ids stay unique across an update, since ids are never changed. */
  lemma UpdateKeepsUniqueIds(ps: seq<Profession>, id: string, u: Update)
    requires UniqueIds(ps)
    ensures UniqueIds(UpdateProfession(ps, id, u))
  {
  }

  /** A profession's XP total lies in its level's window. */
  predicate Coherent(p: Profession)
  {
    1 <= p.currentLevel <= 100 &&
    GetXPForLevel(p.currentLevel) <= p.currentXP &&
    (p.currentLevel == 100 || p.currentXP < GetXPForLevel(p.currentLevel + 1))
  }

  /** The level field of a card: the handler reads the card's target. */
  function EditLevel(ps: seq<Profession>, p: Profession, value: string): (r: seq<Profession>)
    ensures |r| == |ps|
    ensures Rejected(value) ==> r == ps
    ensures forall j :: 0 <= j < |ps| ==> r[j].id == ps[j].id
    ensures forall j :: 0 <= j < |ps| && ps[j].id != p.id ==> r[j] == ps[j]
  {
    match HandleLevelChange(value, p.targetLevel)
    case None => ps
    case Some(u) => UpdateProfession(ps, p.id, u)
  }

  /** The XP field of a card: the handler reads the card's level. */
  function EditXP(ps: seq<Profession>, p: Profession, value: string): (r: seq<Profession>)
    ensures |r| == |ps|
    ensures Rejected(value) ==> r == ps
    ensures forall j :: 0 <= j < |ps| ==> r[j].id == ps[j].id
    ensures forall j :: 0 <= j < |ps| && ps[j].id != p.id ==> r[j] == ps[j]
  {
    match HandleXPChange(value, p.currentLevel)
    case None => ps
    case Some(u) => UpdateProfession(ps, p.id, u)
  }

  /** The target field of a card: the handler reads the card's level. */
  function EditTarget(ps: seq<Profession>, p: Profession, value: string): (r: seq<Profession>)
    ensures |r| == |ps|
    ensures Rejected(value) ==> r == ps
    ensures forall j :: 0 <= j < |ps| ==> r[j].id == ps[j].id
    ensures forall j :: 0 <= j < |ps| && ps[j].id != p.id ==> r[j] == ps[j]
  {
    match HandleTargetLevelChange(value, p.currentLevel)
    case None => ps
    case Some(u) => UpdateProfession(ps, p.id, u)
  }

  /** A level edit on the card of `ps[i]`: rejected text changes nothing;
      otherwise the edited profession becomes coherent with its target at
      or above its level, and every other profession is unchanged. */
  lemma EditLevelEffect(ps: seq<Profession>, i: int, value: string)
    requires 0 <= i < |ps|
    ensures var r := EditLevel(ps, ps[i], value);
            |r| == |ps| &&
            (Rejected(value) ==> r == ps) &&
            (!Rejected(value) ==> Coherent(r[i]) && r[i].targetLevel >= r[i].currentLevel) &&
            (forall j :: 0 <= j < |ps| && ps[j].id != ps[i].id ==> r[j] == ps[j])
  {
    if !Rejected(value) {
      var u := HandleLevelChange(value, ps[i].targetLevel).value;
      var level := u.currentLevel.value;
      if level < 100 {
        TableStrictlyIncreasing(level, level + 1);
      }
    }
  }

  /** An XP edit on the card of `ps[i]`: rejected text changes nothing;
      otherwise the edited profession's level and XP agree afterwards, its
      target is kept, and every other profession is unchanged. */
  lemma EditXPEffect(ps: seq<Profession>, i: int, value: string)
    requires 0 <= i < |ps|
    ensures var r := EditXP(ps, ps[i], value);
            |r| == |ps| &&
            (Rejected(value) ==> r == ps) &&
            (!Rejected(value) ==> Coherent(r[i]) && r[i].targetLevel == ps[i].targetLevel) &&
            (forall j :: 0 <= j < |ps| && ps[j].id != ps[i].id ==> r[j] == ps[j])
  {
    if !Rejected(value) {
      XPChangeIsCoherent(value, ps[i].currentLevel);
    }
  }

  /** A target edit on the card of `ps[i]` moves only targets: levels and
      XP totals of the whole roster are kept, and the edited target lies in
      [level, 100] when the level does not exceed 100. */
  lemma EditTargetEffect(ps: seq<Profession>, i: int, value: string)
    requires 0 <= i < |ps|
    ensures var r := EditTarget(ps, ps[i], value);
            |r| == |ps| &&
            (Rejected(value) ==> r == ps) &&
            (!Rejected(value) ==> r[i].targetLevel >= r[i].currentLevel) &&
            (!Rejected(value) && ps[i].currentLevel <= 100 ==> r[i].targetLevel <= 100) &&
            (forall j :: 0 <= j < |ps| ==>
               r[j].currentLevel == ps[j].currentLevel && r[j].currentXP == ps[j].currentXP) &&
            (forall j :: 0 <= j < |ps| && ps[j].id != ps[i].id ==> r[j] == ps[j])
  {
  }

  /** An XP edit does not keep the target at or above the level: a fresh
      profession at level 1 with target 1 given 200 XP moves to level 5
      and keeps target 1. */
  lemma XPEditCanLeaveTargetBelowLevel()
    ensures var p := Profession("alchemist", "Alchemist", Harvest, 1, 0, 1, "");
            var r := EditXP([p], p, "200");
            r[0].currentLevel == 5 && r[0].targetLevel == 1
  {
    var p := Profession("alchemist", "Alchemist", Harvest, 1, 0, 1, "");
    assert IsNumericString("200") && DecimalValue("200") == 200 by {
      assert DecimalValue("2") == 2;
      assert DecimalValue("20") == 20;
    }
    LevelOfWindow(200, 5);
  }
}
