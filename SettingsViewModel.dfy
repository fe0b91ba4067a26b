/** `SettingsViewModel`: the settings screen's state (the Room settings row
    and the digest preferences), the seeding of the row, and the five
    setters with the messages they emit and the digest runs they schedule. */
module SettingsViewModel {
  import opened Wrappers
  import opened Seqs
  import opened Text
  import opened Entities
  import opened Daos

  /** `Build.VERSION_CODES.O`. */
  const VersionCodesO: int := 26

  /** `DigestSettings`: is the daily digest on, and at what time. */
  datatype DigestSettings = DigestSettings(enabled: bool, hour: int, minute: int)

  const DefaultDigest: DigestSettings := DigestSettings(true, 18, 0)

  /** `SettingsUi`. */
  datatype SettingsUi = SettingsUi(
    blockUnknownEnabled: bool,
    skipCallLogOnBlock: bool,
    skipNotificationOnBlock: bool,
    digestEnabled: bool,
    digestHour: int,
    digestMinute: int)

  /** `SettingsUi()`, the value `ui` holds before anything is combined. */
  const DefaultUi: SettingsUi := SettingsUi(true, false, true, true, 18, 0)

  /** The `combine` of `ui`: block fields from the row, digest fields from the preferences. */
  function UiOf(digest: DigestSettings, room: Settings): (u: SettingsUi)
    ensures u.blockUnknownEnabled == room.blockUnknownEnabled
      && u.skipCallLogOnBlock == room.skipCallLogOnBlock
      && u.skipNotificationOnBlock == room.skipNotificationOnBlock
    ensures u.digestEnabled == digest.enabled && u.digestHour == digest.hour && u.digestMinute == digest.minute
  {
    SettingsUi(room.blockUnknownEnabled, room.skipCallLogOnBlock, room.skipNotificationOnBlock,
               digest.enabled, digest.hour, digest.minute)
  }

  /** The initial `ui` is what the default row and the default preferences combine to. */
  lemma DefaultUiIsCombinedDefaults()
    ensures UiOf(DefaultDigest, DefaultSettings) == DefaultUi
  {
  }

  const BlockUnknownSubject: string := "Bloqueo de desconocidos "
  const SkipCallLogSubject: string := "No registrar en historial: "
  const SkipNotificationSubject: string := "Silenciar notificación: "
  const DigestSubject: string := "Resumen diario "
  const DigestNeedsOreoMessage: string := "Resumen diario requiere Android 8.0+ (no se puede programar en este dispositivo)"
  const DigestTimeSubject: string := "Hora del resumen: "

  function StatusWord(enabled: bool): string {
    if enabled then "ACTIVADO" else "DESACTIVADO"
  }

  /** The message of a toggle: its subject, then ACTIVADO or DESACTIVADO. */
  function ToggleMessage(subject: string, enabled: bool): (m: string)
    ensures StartsWith(m, subject)
  {
    assert (subject + StatusWord(enabled))[..|subject|] == subject;
    subject + StatusWord(enabled)
  }

  /** A toggle message names the new value: removing its subject leaves the
      status word, and the two status words differ. */
  lemma ToggleMessageNamesValue(subject: string, enabled: bool, other: bool)
    ensures RemovePrefix(ToggleMessage(subject, enabled), subject) == StatusWord(enabled)
    ensures ToggleMessage(subject, enabled) == ToggleMessage(subject, other) <==> enabled == other
  {
    var m := ToggleMessage(subject, enabled);
    assert m[|subject|..] == StatusWord(enabled);
    if ToggleMessage(subject, enabled) == ToggleMessage(subject, other) {
      assert |StatusWord(enabled)| == |StatusWord(other)|;
    }
  }

  /** `"Hora del resumen: %02d:%02d".format(hour, minute)`. */
  function DigestTimeMessage(hour: int, minute: int): (m: string)
    ensures StartsWith(m, DigestTimeSubject) && |m| >= |DigestTimeSubject| + 5
  {
    DigestTimeSubject + Pad2(hour) + ":" + Pad2(minute)
  }

  /** For a time of day the message has fixed width, and the hour and the
      minute can be read back from their two-digit fields. */
  lemma DigestTimeMessageReadsBack(hour: int, minute: int)
    requires 0 <= hour < 24 && 0 <= minute < 60
    ensures var m := DigestTimeMessage(hour, minute);
      |m| == 23 && m[20] == ':' && AllDigits(m[18..20]) && AllDigits(m[21..23])
      && DigitsValue(m[18..20]) == hour && DigitsValue(m[21..23]) == minute
  {
    var h, mi := Pad2(hour), Pad2(minute);
    assert |DigestTimeSubject| == 18;
    Fields(DigestTimeSubject, h, mi);
  }

  /** The two fields of `subject + a + ":" + b`, for two-character `a` and `b`. */
  lemma Fields(subject: string, a: string, b: string)
    requires |a| == 2 && |b| == 2
    ensures var m := subject + a + ":" + b;
      var n := |subject|;
      |m| == n + 5 && m[n + 2] == ':' && m[n..n + 2] == a && m[n + 3..n + 5] == b
  {
    var m := subject + a + ":" + b;
    var n := |subject|;
    assert m[n..n + 2] == a by {
      forall i | 0 <= i < 2 ensures m[n..n + 2][i] == a[i] { assert m[n + i] == a[i]; }
    }
    assert m[n + 3..n + 5] == b by {
      forall i | 0 <= i < 2 ensures m[n + 3..n + 5][i] == b[i] { assert m[n + 3 + i] == b[i]; }
    }
  }

  /** A request to `DailyDigestWorker.schedule(hour, minute)`. */
  datatype ScheduleRequest = ScheduleRequest(hour: int, minute: int)

  class SettingsViewModel {
    const db: SettingsDao
    const sdkInt: int
    var settingsRoom: Settings
    var digest: DigestSettings
    /** The messages emitted on `events`, oldest first. */
    var events: seq<string>
    /** The calls made to `DailyDigestWorker.schedule`, oldest first. */
    var scheduled: seq<ScheduleRequest>

    ghost predicate Valid()
      reads this, db
    {
      db.Valid() && settingsRoom.id == 0
    }

    /** The persisted row is the in-memory one. */
    ghost predicate Synced()
      reads this, db
    {
      db.Valid() && db.Get() == Some(settingsRoom)
    }

    /** `ui`: the three blocking flags of the in-memory row and the three
        digest fields of the preferences. */
    function Ui(): (u: SettingsUi)
      reads this
      ensures u.blockUnknownEnabled == settingsRoom.blockUnknownEnabled
        && u.skipCallLogOnBlock == settingsRoom.skipCallLogOnBlock
        && u.skipNotificationOnBlock == settingsRoom.skipNotificationOnBlock
      ensures u.digestEnabled == digest.enabled && u.digestHour == digest.hour && u.digestMinute == digest.minute
    {
      UiOf(digest, settingsRoom)
    }

    /** `init`: seed the row with `Settings()` when there is none, otherwise
        adopt the stored one. The stored row has id 0: that is how `get` finds it. */
    constructor(db: SettingsDao, digest: DigestSettings, sdkInt: int)
      requires db.Valid()
      modifies db
      ensures Valid() && Synced()
      ensures this.db == db && this.sdkInt == sdkInt && this.digest == digest
      ensures old(0 in db.rows) ==> db.rows == old(db.rows) && settingsRoom == old(db.rows[0])
      ensures old(0 !in db.rows) ==> db.rows == old(db.rows)[0 := DefaultSettings] && settingsRoom == DefaultSettings
      ensures events == [] && scheduled == []
    {
      this.db := db;
      this.sdkInt := sdkInt;
      this.digest := digest;
      events := [];
      scheduled := [];
      var existing := db.Get();
      if existing.None? {
        db.Upsert(DefaultSettings);
        settingsRoom := DefaultSettings;
      } else {
        settingsRoom := existing.value;
      }
    }

    /** `setBlockUnknown`. */
    method SetBlockUnknown(enabled: bool)
      requires Valid()
      modifies this, db
      ensures Valid() && Synced()
      ensures settingsRoom == old(settingsRoom).(blockUnknownEnabled := enabled)
      ensures db.rows == old(db.rows)[0 := settingsRoom]
      ensures events == old(events) + [ToggleMessage(BlockUnknownSubject, enabled)]
      ensures digest == old(digest) && scheduled == old(scheduled)
    {
      var s := settingsRoom.(blockUnknownEnabled := enabled);
      db.Upsert(s);
      settingsRoom := s;
      events := events + [ToggleMessage(BlockUnknownSubject, enabled)];
    }

    /** `setSkipCallLog`. */
    method SetSkipCallLog(enabled: bool)
      requires Valid()
      modifies this, db
      ensures Valid() && Synced()
      ensures settingsRoom == old(settingsRoom).(skipCallLogOnBlock := enabled)
      ensures db.rows == old(db.rows)[0 := settingsRoom]
      ensures events == old(events) + [ToggleMessage(SkipCallLogSubject, enabled)]
      ensures digest == old(digest) && scheduled == old(scheduled)
    {
      var s := settingsRoom.(skipCallLogOnBlock := enabled);
      db.Upsert(s);
      settingsRoom := s;
      events := events + [ToggleMessage(SkipCallLogSubject, enabled)];
    }

    /** `setSkipNotif`. */
    method SetSkipNotif(enabled: bool)
      requires Valid()
      modifies this, db
      ensures Valid() && Synced()
      ensures settingsRoom == old(settingsRoom).(skipNotificationOnBlock := enabled)
      ensures db.rows == old(db.rows)[0 := settingsRoom]
      ensures events == old(events) + [ToggleMessage(SkipNotificationSubject, enabled)]
      ensures digest == old(digest) && scheduled == old(scheduled)
    {
      var s := settingsRoom.(skipNotificationOnBlock := enabled);
      db.Upsert(s);
      settingsRoom := s;
      events := events + [ToggleMessage(SkipNotificationSubject, enabled)];
    }

    /** `setDigestEnabled`: store the flag; when enabling on Android 8.0 or
        later, schedule at the current digest time; when enabling on an
        older version, say that it cannot be scheduled. */
    method SetDigestEnabled(enabled: bool)
      requires Valid()
      modifies this
      ensures Valid()
      ensures digest == old(digest).(enabled := enabled)
      ensures enabled && sdkInt >= VersionCodesO ==>
        scheduled == old(scheduled) + [ScheduleRequest(digest.hour, digest.minute)]
      ensures !(enabled && sdkInt >= VersionCodesO) ==> scheduled == old(scheduled)
      ensures enabled && sdkInt < VersionCodesO ==> events == old(events) + [DigestNeedsOreoMessage]
      ensures !(enabled && sdkInt < VersionCodesO) ==> events == old(events) + [ToggleMessage(DigestSubject, enabled)]
      ensures settingsRoom == old(settingsRoom)
    {
      digest := digest.(enabled := enabled);
      if enabled && sdkInt >= VersionCodesO {
        var curr := Ui();
        scheduled := scheduled + [ScheduleRequest(curr.digestHour, curr.digestMinute)];
      }
      if enabled && sdkInt < VersionCodesO {
        events := events + [DigestNeedsOreoMessage];
      } else {
        events := events + [ToggleMessage(DigestSubject, enabled)];
      }
    }

    /** `setDigestTime`: store the time, reschedule only when the digest is
        on (and Android 8.0 or later), and report the time. */
    method SetDigestTime(hour: int, minute: int)
      requires Valid()
      modifies this
      ensures Valid()
      ensures digest == old(digest).(hour := hour, minute := minute)
      ensures digest.enabled && sdkInt >= VersionCodesO ==> scheduled == old(scheduled) + [ScheduleRequest(hour, minute)]
      ensures !(digest.enabled && sdkInt >= VersionCodesO) ==> scheduled == old(scheduled)
      ensures events == old(events) + [DigestTimeMessage(hour, minute)]
      ensures settingsRoom == old(settingsRoom)
    {
      digest := digest.(hour := hour, minute := minute);
      var enabled := Ui().digestEnabled;
      if enabled && sdkInt >= VersionCodesO {
        scheduled := scheduled + [ScheduleRequest(hour, minute)];
      }
      events := events + [DigestTimeMessage(hour, minute)];
    }
  }
}
