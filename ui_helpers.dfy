/**
 * The display helpers of the user interface: text truncation, the progress
 * classifiers that pick a colour and a status label from a percentage, and
 * the edit-mode flags kept in the page's session state.
 */
module UiHelpers {

  /** The default `max_length` of `truncate_text`. */
  const DefaultMaxLength: nat := 20

  /** What a truncated text ends with. */
  const Ellipsis: string := "..."

  /**
   * `truncate_text(text, max_length)`. A text longer than `max_length` keeps
   * the slice `text[:max_length]` followed by "..."; a negative `max_length`
   * slices from the end as Python does, so the kept part is all but the last
   * `-max_length` characters (or nothing).
   */
  function TruncateText(text: string, maxLength: int): (r: string)
    ensures |text| <= maxLength ==> r == text
    ensures 0 <= maxLength < |text| ==> |r| == maxLength + 3 && r[..maxLength] == text[..maxLength]
    ensures |text| > maxLength ==> |r| >= 3 && r[|r| - 3..] == Ellipsis
    ensures maxLength < 0 ==> |r| == 3 + (if |text| + maxLength < 0 then 0 else |text| + maxLength)
    ensures maxLength >= 0 ==> |r| <= maxLength + 3
    ensures |r| <= |text| + 3
  {
    if |text| > maxLength then
      var keep := KeptLength(|text|, maxLength);
      assert (text[..keep] + Ellipsis)[..keep] == text[..keep];
      text[..keep] + Ellipsis
    else
      text
  }

  /** `truncate_text(text)` with the default limit: at most 23 characters, short texts unchanged. */
  function TruncateDefault(text: string): (r: string)
    ensures |text| <= DefaultMaxLength ==> r == text
    ensures |text| > DefaultMaxLength ==> r == text[..DefaultMaxLength] + Ellipsis
    ensures |r| <= 23
  {
    TruncateText(text, DefaultMaxLength)
  }

  /** How much of a too-long text `text[:max_length]` keeps, negative limits counting from the end. */
  function KeptLength(length: nat, maxLength: int): (keep: nat)
    requires length > maxLength
    ensures keep <= length
  {
    if maxLength >= 0 then maxLength
    else if length + maxLength < 0 then 0
    else length + maxLength
  }

  /** The kept part of a truncated text is a prefix of the original text. */
  lemma TruncateKeepsPrefix(text: string, maxLength: int)
    ensures var r := TruncateText(text, maxLength);
            if |text| <= maxLength then r == text
            else exists keep :: 0 <= keep <= |text| && r == text[..keep] + Ellipsis
  {
    if |text| > maxLength {
      assert TruncateText(text, maxLength) == text[..KeptLength(|text|, maxLength)] + Ellipsis;
    }
  }

  /** Truncating to a non-negative length a second time changes nothing. */
  lemma TruncateIdempotent(text: string, maxLength: int)
    requires maxLength >= 0
    ensures TruncateText(TruncateText(text, maxLength), maxLength) == TruncateText(text, maxLength)
  {
    var r := TruncateText(text, maxLength);
    if |text| > maxLength {
      assert r == text[..maxLength] + Ellipsis;
      assert |r| > maxLength;
      assert r[..maxLength] == text[..maxLength];
      assert TruncateText(r, maxLength) == r[..maxLength] + Ellipsis;
    }
  }

  /**
   * `get_progress_color(percentage)`: "success" from 100 up, "info" from 50,
   * "warning" above 0 and "normal" otherwise.
   */
  function ProgressColor(percentage: real): (c: string)
    ensures c == "success" <==> percentage >= 100.0
    ensures c == "info" <==> 50.0 <= percentage < 100.0
    ensures c == "warning" <==> 0.0 < percentage < 50.0
    ensures c == "normal" <==> percentage <= 0.0
  {
    if percentage >= 100.0 then "success"
    else if percentage >= 50.0 then "info"
    else if percentage > 0.0 then "warning"
    else "normal"
  }

  /** The order of the progress colours, from no progress to done. */
  function ColorRank(c: string): (n: nat)
    ensures n <= 3
  {
    if c == "success" then 3
    else if c == "info" then 2
    else if c == "warning" then 1
    else 0
  }

  /** More progress never gives a lower colour. */
  lemma ProgressColorMonotone(p: real, q: real)
    requires p <= q
    ensures ColorRank(ProgressColor(p)) <= ColorRank(ProgressColor(q))
  {
  }

  /** The status part of `get_achievement_status`; the two middle cases carry the shown percentage. */
  datatype Status = Completed | InProgress(percentage: real) | Started(percentage: real) | NotStarted

  /** `get_achievement_status(percentage)`: the same thresholds as the progress colour. */
  function AchievementStatus(percentage: real): (s: Status)
    ensures s == Completed <==> percentage >= 100.0
    ensures s.InProgress? <==> 50.0 <= percentage < 100.0
    ensures s.Started? <==> 0.0 < percentage < 50.0
    ensures s == NotStarted <==> percentage <= 0.0
    ensures s.InProgress? || s.Started? ==> s.percentage == percentage
  {
    if percentage >= 100.0 then Completed
    else if percentage >= 50.0 then InProgress(percentage)
    else if percentage > 0.0 then Started(percentage)
    else NotStarted
  }

  /** The colour table entries the status uses, and the grey of a goal not started. */
  const SuccessColor: string := "#00cc96"
  const InfoColor: string := "#36a2eb"
  const WarningColor: string := "#ff6b6b"
  const NotStartedColor: string := "#cccccc"

  /** The "color" entry of `get_achievement_status`. */
  function StatusColor(s: Status): string
  {
    match s
    case Completed => SuccessColor
    case InProgress(_) => InfoColor
    case Started(_) => WarningColor
    case NotStarted => NotStartedColor
  }

  /**
   * The "status" entry of `get_achievement_status`; `shown` renders the
   * percentage with one decimal.
   */
  function StatusLabel(s: Status, shown: real -> string): string
  {
    match s
    case Completed => "✅ 完了"
    case InProgress(p) => "🔄 進行中 (" + shown(p) + "%)"
    case Started(p) => "⏳ 開始 (" + shown(p) + "%)"
    case NotStarted => "⏳ 未着手"
  }

  /** The name of a colour-table entry under which a status is drawn, as the progress colour names it. */
  function ColorName(c: string): string
  {
    if c == SuccessColor then "success"
    else if c == InfoColor then "info"
    else if c == WarningColor then "warning"
    else "normal"
  }

  /**
   * The status and the progress colour use the same thresholds: the status
   * colour, named as the progress colour names its bands, is the progress
   * colour (the grey of a goal not started reads as "normal").
   */
  lemma StatusAgreesWithProgressColor(percentage: real)
    ensures ColorName(StatusColor(AchievementStatus(percentage))) == ProgressColor(percentage)
  {
  }

  /**
   * Whatever the percentage formatting, the label reads "✅ 完了" exactly from
   * 100 up and "⏳ 未着手" exactly at 0 or below.
   */
  lemma StatusLabelIdentifiesEnds(percentage: real, shown: real -> string)
    ensures StatusLabel(AchievementStatus(percentage), shown) == "✅ 完了" <==> percentage >= 100.0
    ensures StatusLabel(AchievementStatus(percentage), shown) == "⏳ 未着手" <==> percentage <= 0.0
  {
    var s := AchievementStatus(percentage);
    var text := StatusLabel(s, shown);
    match s
    case Completed =>
      assert text[0] == '✅' && "⏳ 未着手"[0] == '⏳';
    case InProgress(p) =>
      assert text[0] == '🔄';
      assert "✅ 完了"[0] != '🔄' && "⏳ 未着手"[0] != '🔄';
    case Started(p) =>
      assert text[2] == '開';
      assert "✅ 完了"[0] != '⏳' && "⏳ 未着手"[2] != '開';
    case NotStarted =>
      assert text[0] == '⏳' && "✅ 完了"[0] == '✅';
  }

  /** `edit_mode_key(entity_id)`. */
  function EditModeKey(entityId: string): (key: string)
    ensures |key| == |entityId| + 10
    ensures key[..10] == "edit_mode_" && key[10..] == entityId
  {
    "edit_mode_" + entityId
  }

  /** Different entities have different edit-mode keys. */
  lemma EditModeKeyInjective(a: string, b: string)
    requires EditModeKey(a) == EditModeKey(b)
    ensures a == b
  {
    assert a == EditModeKey(a)[10..];
  }

  /** A session-state value: the stored values this model needs. */
  datatype Value = Flag(b: bool) | Text(s: string) | Number(n: int) | Nothing

  /** The session state after `toggle_edit_mode(entity_id, enable)`. */
  function WithEditMode(entries: map<string, Value>, entityId: string, enable: bool): (r: map<string, Value>)
    ensures enable <==> EditModeKey(entityId) in r
    ensures enable ==> r[EditModeKey(entityId)] == Flag(true)
    ensures forall k :: k in entries && k != EditModeKey(entityId) ==> k in r && r[k] == entries[k]
    ensures forall k :: k in r && k != EditModeKey(entityId) ==> k in entries
  {
    var key := EditModeKey(entityId);
    if enable then entries[key := Flag(true)]
    else if key in entries then entries - {key}
    else entries
  }

  /** Toggling one entity leaves the edit mode of every other entity as it was. */
  lemma ToggleLeavesOthers(entries: map<string, Value>, entityId: string, enable: bool, other: string)
    requires other != entityId
    ensures EditModeKey(other) in WithEditMode(entries, entityId, enable) <==> EditModeKey(other) in entries
  {
    if EditModeKey(other) == EditModeKey(entityId) {
      EditModeKeyInjective(other, entityId);
    }
  }

  /** Disabling an entity not in edit mode changes nothing. */
  lemma DisableAbsentIsNoop(entries: map<string, Value>, entityId: string)
    requires EditModeKey(entityId) !in entries
    ensures WithEditMode(entries, entityId, false) == entries
  {
  }

  /** Enabling then disabling restores a state in which the entity was not in edit mode. */
  lemma EnableThenDisable(entries: map<string, Value>, entityId: string)
    requires EditModeKey(entityId) !in entries
    ensures WithEditMode(WithEditMode(entries, entityId, true), entityId, false) == entries
  {
    var key := EditModeKey(entityId);
    assert entries[key := Flag(true)] - {key} == entries;
  }

  /** `st.session_state`: the per-session key-value store the helpers read and write. */
  class SessionState {
    var entries: map<string, Value>

    /** A new session starts empty. */
    constructor()
      ensures entries == map[]
    {
      entries := map[];
    }

    /** `session_state_manager(key, default)`: store the default only when the key is absent, return the stored value. */
    method Manage(key: string, default: Value) returns (v: Value)
      modifies this
      ensures key in old(entries) ==> entries == old(entries) && v == old(entries)[key]
      ensures key !in old(entries) ==> entries == old(entries)[key := default] && v == default
      ensures key in entries && v == entries[key]
      ensures forall id :: IsEditMode(id) <==> old(IsEditMode(id)) || key == EditModeKey(id)
    {
      if key !in entries {
        entries := entries[key := default];
      }
      v := entries[key];
    }

    /** `is_edit_mode(entity_id)`: the entity's key is present, whatever its value. */
    predicate IsEditMode(entityId: string)
      reads this
    {
      EditModeKey(entityId) in entries
    }

    /** `toggle_edit_mode(entity_id, enable)`: set the key to true, or delete it when present. */
    method ToggleEditMode(entityId: string, enable: bool)
      modifies this
      ensures entries == WithEditMode(old(entries), entityId, enable)
      ensures IsEditMode(entityId) == enable
      ensures forall other :: other != entityId ==> (IsEditMode(other) <==> old(IsEditMode(other)))
    {
      var key := EditModeKey(entityId);
      if enable {
        entries := entries[key := Flag(true)];
      } else {
        if key in entries {
          entries := entries - {key};
        }
      }
    }
  }
}
