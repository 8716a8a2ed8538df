/**
 * The session and settings store (lib/db/operations.ts) over an in-memory
 * table: sessions keyed by id, listed newest first, filtered by difficulty
 * and mode, cut to a limit; and the single settings record with its defaults
 * and partial updates.
 */
module Store {
  import opened JsBuiltins
  import Analyzer
  import Practice

  datatype Mode = Challenge | Completion
  datatype TextType = Random | Sentence | Programming
  datatype Theme = Light | Dark

  /** One finished session as stored. */
  datatype Session = Session(
    id: string,
    timestamp: int,
    mode: Mode,
    difficulty: Practice.Difficulty,
    textType: TextType,
    targetText: string,
    typedText: string,
    duration: int,
    wpm: int,
    accuracy: int,
    keyStats: seq<Analyzer.KeyStat>,
    aiAdvice: string)

  /** What saveSession is given: a session whose id may be missing. */
  datatype SessionInput = SessionInput(
    id: Option<string>,
    timestamp: int,
    mode: Mode,
    difficulty: Practice.Difficulty,
    textType: TextType,
    targetText: string,
    typedText: string,
    duration: int,
    wpm: int,
    accuracy: int,
    keyStats: seq<Analyzer.KeyStat>,
    aiAdvice: string)

  /** The options of getSessions; None is a field left out. */
  datatype SessionFilter = SessionFilter(difficulty: Option<Practice.Difficulty>, mode: Option<Mode>, limit: Option<int>)

  const NoFilter: SessionFilter := SessionFilter(None, None, None)

  datatype Settings = Settings(id: string, theme: Theme, soundEnabled: bool, defaultDifficulty: Practice.Difficulty)

  /** The fields updateSettings may change; None is a field left out. */
  datatype SettingsUpdate = SettingsUpdate(theme: Option<Theme>, soundEnabled: Option<bool>, defaultDifficulty: Option<Practice.Difficulty>)

  /** The one key the settings are read and written under. */
  const SettingsId: string := "user-1"

  const DefaultSettings: Settings := Settings(SettingsId, Light, true, Practice.Beginner)

  const DefaultRecentLimit: nat := 10

  /** The id saveSession uses: the given one when it is a non-empty string, otherwise a generated one. */
  function SessionId(input: SessionInput, generatedId: string): string {
    if Truthy(input.id) then input.id.value else generatedId
  }

  /** The record saveSession writes: every field copied from the input, under the chosen id. */
  function ToSession(id: string, input: SessionInput): (s: Session)
    ensures s.id == id
    ensures Faithful(s, input)
  {
    Session(id, input.timestamp, input.mode, input.difficulty, input.textType, input.targetText,
      input.typedText, input.duration, input.wpm, input.accuracy, input.keyStats, input.aiAdvice)
  }

  /** A stored session agrees with the input on every field but the id. */
  predicate Faithful(s: Session, input: SessionInput) {
    s.timestamp == input.timestamp && s.mode == input.mode && s.difficulty == input.difficulty &&
    s.textType == input.textType && s.targetText == input.targetText && s.typedText == input.typedText &&
    s.duration == input.duration && s.wpm == input.wpm && s.accuracy == input.accuracy &&
    s.keyStats == input.keyStats && s.aiAdvice == input.aiAdvice
  }

  /** Newer sessions come first. */
  predicate NewestFirst(xs: seq<Session>) {
    forall i, j :: 0 <= i < j < |xs| ==> xs[i].timestamp >= xs[j].timestamp
  }

  /** No session appears twice. */
  predicate NoDuplicateIds(xs: seq<Session>) {
    forall i, j :: 0 <= i < j < |xs| ==> xs[i].id != xs[j].id
  }

  /**
   * orderBy('timestamp').reverse(): every stored session once, newest first
   * (the order among equal timestamps is the database's and is not fixed here).
   */
  predicate IsNewestFirstListing(listing: seq<Session>, table: map<string, Session>) {
    NewestFirst(listing) && NoDuplicateIds(listing) &&
    (forall i :: 0 <= i < |listing| ==> listing[i].id in table && table[listing[i].id] == listing[i]) &&
    (forall id :: id in table ==> table[id] in listing)
  }

  /** Array.prototype.filter. */
  function Filter(xs: seq<Session>, keep: Session -> bool): (r: seq<Session>)
    ensures |r| <= |xs|
    decreases |xs|
  {
    if xs == [] then []
    else
      var rest := Filter(xs[..|xs| - 1], keep);
      if keep(xs[|xs| - 1]) then rest + [xs[|xs| - 1]] else rest
  }

  /** The sequence of steps in getSessions: difficulty filter, mode filter, then a truthy limit. */
  function ApplyFilter(listing: seq<Session>, filter: SessionFilter): seq<Session> {
    var byDifficulty := if filter.difficulty.Some? then Filter(listing, (s: Session) => s.difficulty == filter.difficulty.value) else listing;
    var byMode := if filter.mode.Some? then Filter(byDifficulty, (s: Session) => s.mode == filter.mode.value) else byDifficulty;
    if TruthyNumber(filter.limit) then SliceTo(byMode, filter.limit.value) else byMode
  }

  /** Whether a session passes the difficulty and mode options. */
  predicate Matches(s: Session, filter: SessionFilter) {
    (filter.difficulty.Some? ==> s.difficulty == filter.difficulty.value) &&
    (filter.mode.Some? ==> s.mode == filter.mode.value)
  }

  /** Dexie's limit(n) on the newest-first listing. */
  function TakeNewest(listing: seq<Session>, limit: nat): (r: seq<Session>)
    ensures |r| == if limit < |listing| then limit else |listing|
    ensures r == listing[..|r|]
  {
    if limit < |listing| then listing[..limit] else listing
  }

  /** The settings getSettings returns for a settings table. */
  function CurrentSettings(table: map<string, Settings>): Settings {
    if SettingsId in table then table[SettingsId] else DefaultSettings
  }

  /** The object spread {...current, ...updates}: a supplied field wins, every other field is kept. */
  function Merge(current: Settings, updates: SettingsUpdate): (r: Settings)
    ensures r.id == current.id
    ensures r.theme == (if updates.theme.Some? then updates.theme.value else current.theme)
    ensures r.soundEnabled == (if updates.soundEnabled.Some? then updates.soundEnabled.value else current.soundEnabled)
    ensures r.defaultDifficulty ==
      (if updates.defaultDifficulty.Some? then updates.defaultDifficulty.value else current.defaultDifficulty)
  {
    Settings(
      current.id,
      if updates.theme.Some? then updates.theme.value else current.theme,
      if updates.soundEnabled.Some? then updates.soundEnabled.value else current.soundEnabled,
      if updates.defaultDifficulty.Some? then updates.defaultDifficulty.value else current.defaultDifficulty)
  }

  /** Insert a session into a newest-first listing, before the first older-or-equal one. */
  function InsertNewestFirst(xs: seq<Session>, s: Session): (r: seq<Session>)
    ensures |r| == |xs| + 1
    ensures forall x :: x in r <==> x == s || x in xs
    decreases |xs|
  {
    if xs == [] || s.timestamp >= xs[0].timestamp then [s] + xs
    else
      var rest := InsertNewestFirst(xs[1..], s);
      assert forall x :: x in xs <==> x == xs[0] || x in xs[1..] by {
        assert xs == [xs[0]] + xs[1..];
      }
      [xs[0]] + rest
  }

  /** Inserting into a newest-first listing keeps it newest first. */
  lemma {:induction false} InsertKeepsNewestFirst(xs: seq<Session>, s: Session)
    requires NewestFirst(xs)
    ensures NewestFirst(InsertNewestFirst(xs, s))
    decreases |xs|
  {
    if xs == [] || s.timestamp >= xs[0].timestamp {
      var r := [s] + xs;
      forall i, j | 0 <= i < j < |r| ensures r[i].timestamp >= r[j].timestamp {
        if i > 0 {
          assert r[i] == xs[i - 1];
        }
        assert r[j] == xs[j - 1];
      }
    } else {
      var tail := xs[1..];
      forall i, j | 0 <= i < j < |tail| ensures tail[i].timestamp >= tail[j].timestamp {
        assert tail[i] == xs[i + 1] && tail[j] == xs[j + 1];
      }
      InsertKeepsNewestFirst(tail, s);
      var rest := InsertNewestFirst(tail, s);
      var r := [xs[0]] + rest;
      forall j | 0 <= j < |rest| ensures rest[j].timestamp <= xs[0].timestamp {
        assert rest[j] in rest;
        if rest[j] != s {
          var k :| 0 <= k < |tail| && tail[k] == rest[j];
          assert tail[k] == xs[k + 1];
        }
      }
      forall i, j | 0 <= i < j < |r| ensures r[i].timestamp >= r[j].timestamp {
        if i > 0 {
          assert r[i] == rest[i - 1];
        }
        assert r[j] == rest[j - 1];
      }
    }
  }

  /** Inserting a session whose id is new keeps every id once. */
  lemma {:induction false} InsertKeepsIdsDistinct(xs: seq<Session>, s: Session)
    requires NoDuplicateIds(xs)
    requires forall i :: 0 <= i < |xs| ==> xs[i].id != s.id
    ensures NoDuplicateIds(InsertNewestFirst(xs, s))
    decreases |xs|
  {
    if xs == [] || s.timestamp >= xs[0].timestamp {
      var r := [s] + xs;
      forall i, j | 0 <= i < j < |r| ensures r[i].id != r[j].id {
        if i > 0 {
          assert r[i] == xs[i - 1] && r[j] == xs[j - 1];
        } else {
          assert r[j] == xs[j - 1];
        }
      }
    } else {
      var tail := xs[1..];
      forall i, j | 0 <= i < j < |tail| ensures tail[i].id != tail[j].id {
        assert tail[i] == xs[i + 1] && tail[j] == xs[j + 1];
      }
      InsertKeepsIdsDistinct(tail, s);
      var rest := InsertNewestFirst(tail, s);
      var r := [xs[0]] + rest;
      forall j | 0 <= j < |rest| ensures rest[j].id != xs[0].id {
        assert rest[j] in rest;
        if rest[j] != s {
          assert rest[j] in tail;
          var k :| 0 <= k < |tail| && tail[k] == rest[j];
          assert tail[k] == xs[k + 1];
        }
      }
      forall i, j | 0 <= i < j < |r| ensures r[i].id != r[j].id {
        if i > 0 {
          assert r[i] == rest[i - 1] && r[j] == rest[j - 1];
        } else {
          assert r[j] == rest[j - 1];
        }
      }
    }
  }

  class SessionStore {
    /** The sessions table, keyed by id. */
    var sessions: map<string, Session>
    /** The settings table, keyed by id. */
    var settings: map<string, Settings>

    /** Every record is stored under its own id. */
    ghost predicate Valid()
      reads this
    {
      (forall id :: id in sessions ==> sessions[id].id == id) &&
      (forall id :: id in settings ==> settings[id].id == id)
    }

    /** An empty database. */
    constructor()
      ensures Valid()
      ensures sessions == map[] && settings == map[]
    {
      sessions := map[];
      settings := map[];
    }

    /** saveSession: put the record under the given id (or the generated one), replacing any record there. */
    method SaveSession(input: SessionInput, generatedId: string) returns (id: string)
      requires Valid()
      modifies this
      ensures Valid()
      ensures id == SessionId(input, generatedId)
      ensures sessions == old(sessions)[id := ToSession(id, input)]
      ensures settings == old(settings)
    {
      id := if Truthy(input.id) then input.id.value else generatedId;
      var fullSession := ToSession(id, input);
      sessions := sessions[id := fullSession];
    }

    /** The newest-first listing of the sessions table. */
    method ListNewestFirst() returns (listing: seq<Session>)
      requires Valid()
      ensures IsNewestFirstListing(listing, sessions)
    {
      listing := [];
      var remaining := sessions.Keys;
      while remaining != {}
        invariant remaining <= sessions.Keys
        invariant NewestFirst(listing) && NoDuplicateIds(listing)
        invariant forall i :: 0 <= i < |listing| ==>
          listing[i].id in sessions && sessions[listing[i].id] == listing[i] && listing[i].id !in remaining
        invariant forall id :: id in sessions && id !in remaining ==> sessions[id] in listing
        decreases |remaining|
      {
        var id :| id in remaining;
        var s := sessions[id];
        InsertKeepsIdsDistinct(listing, s);
        InsertKeepsNewestFirst(listing, s);
        var next := InsertNewestFirst(listing, s);
        forall i | 0 <= i < |next|
          ensures next[i].id in sessions && sessions[next[i].id] == next[i] && next[i].id !in remaining - {id}
        {
          assert next[i] in next;
          if next[i] != s {
            var k :| 0 <= k < |listing| && listing[k] == next[i];
          }
        }
        listing := next;
        remaining := remaining - {id};
      }
    }

    /** getSessions: the newest-first listing, narrowed by each option given, in the source's order of steps. */
    method GetSessions(filter: SessionFilter) returns (result: seq<Session>, ghost listing: seq<Session>)
      requires Valid()
      ensures IsNewestFirstListing(listing, sessions)
      ensures result == ApplyFilter(listing, filter)
    {
      var all := ListNewestFirst();
      listing := all;
      result := all;
      if filter.difficulty.Some? {
        result := Filter(result, (s: Session) => s.difficulty == filter.difficulty.value);
      }
      if filter.mode.Some? {
        result := Filter(result, (s: Session) => s.mode == filter.mode.value);
      }
      if TruthyNumber(filter.limit) {
        result := SliceTo(result, filter.limit.value);
      }
    }

    /** getRecentSessions: the newest sessions, at most limit of them (10 by default). */
    method GetRecentSessions(limit: nat := DefaultRecentLimit) returns (result: seq<Session>, ghost listing: seq<Session>)
      requires Valid()
      ensures IsNewestFirstListing(listing, sessions)
      ensures result == TakeNewest(listing, limit)
    {
      var all := ListNewestFirst();
      listing := all;
      result := TakeNewest(all, limit);
    }

    /** deleteSession: remove the id; an absent id is not an error. */
    method DeleteSession(id: string)
      requires Valid()
      modifies this
      ensures Valid()
      ensures sessions == old(sessions) - {id}
      ensures settings == old(settings)
    {
      sessions := sessions - {id};
    }

    /** getSettings: the stored record, or the defaults; nothing is written. */
    method GetSettings() returns (current: Settings)
      requires Valid()
      ensures current == CurrentSettings(settings)
      ensures current.id == SettingsId
    {
      if SettingsId in settings {
        current := settings[SettingsId];
      } else {
        current := DefaultSettings;
      }
    }

    /** updateSettings: read the current-or-default record, lay the updates over it, and put it back. */
    method UpdateSettings(updates: SettingsUpdate)
      requires Valid()
      modifies this
      ensures Valid()
      ensures settings == old(settings)[SettingsId := Merge(CurrentSettings(old(settings)), updates)]
      ensures sessions == old(sessions)
    {
      var current := GetSettings();
      var updated := Merge(current, updates);
      settings := settings[SettingsId := updated];
    }
  }

  /** A kept element is an input element that passes; every passing input element is kept; order is kept. */
  lemma {:induction false} FilterSpec(xs: seq<Session>, keep: Session -> bool)
    ensures forall x :: x in Filter(xs, keep) <==> x in xs && keep(x)
    ensures NewestFirst(xs) ==> NewestFirst(Filter(xs, keep))
    ensures NoDuplicateIds(xs) ==> NoDuplicateIds(Filter(xs, keep))
    decreases |xs|
  {
    if xs != [] {
      var init := xs[..|xs| - 1];
      var last := xs[|xs| - 1];
      FilterSpec(init, keep);
      assert xs == init + [last];
      var rest := Filter(init, keep);
      if keep(last) {
        var r := rest + [last];
        if NewestFirst(xs) {
          forall i, j | 0 <= i < j < |r| ensures r[i].timestamp >= r[j].timestamp {
            if j == |rest| {
              assert r[i] in init;
              var k :| 0 <= k < |init| && init[k] == r[i];
              assert xs[k] == r[i];
            } else {
              assert r[i] == rest[i] && r[j] == rest[j];
            }
          }
        }
        if NoDuplicateIds(xs) {
          forall i, j | 0 <= i < j < |r| ensures r[i].id != r[j].id {
            if j == |rest| {
              assert r[i] in init;
              var k :| 0 <= k < |init| && init[k] == r[i];
              assert xs[k] == r[i];
            } else {
              assert r[i] == rest[i] && r[j] == rest[j];
            }
          }
        }
      }
    }
  }

  /** Filtering twice is filtering once by both conditions: the two options act as a conjunction. */
  lemma {:induction false} FilterTwice(xs: seq<Session>, p: Session -> bool, q: Session -> bool, both: Session -> bool)
    requires forall s :: both(s) == (p(s) && q(s))
    ensures Filter(Filter(xs, p), q) == Filter(xs, both)
    decreases |xs|
  {
    if xs != [] {
      var init := xs[..|xs| - 1];
      var last := xs[|xs| - 1];
      FilterTwice(init, p, q, both);
      var once := Filter(init, p);
      if p(last) {
        assert (once + [last])[..|once|] == once;
      }
    }
  }

  /**
   * getSessions keeps exactly the stored sessions that match the options,
   * newest first and each once, when no limit is given.
   */
  lemma ApplyFilterWithoutLimit(listing: seq<Session>, table: map<string, Session>, filter: SessionFilter)
    requires IsNewestFirstListing(listing, table)
    requires !TruthyNumber(filter.limit)
    ensures var result := ApplyFilter(listing, filter);
      NewestFirst(result) && NoDuplicateIds(result) &&
      (forall s :: s in result <==> s in listing && Matches(s, filter)) &&
      (forall id :: id in table && Matches(table[id], filter) ==> table[id] in result)
  {
    var byDifficulty := if filter.difficulty.Some? then Filter(listing, (s: Session) => s.difficulty == filter.difficulty.value) else listing;
    if filter.difficulty.Some? {
      FilterSpec(listing, (s: Session) => s.difficulty == filter.difficulty.value);
    }
    if filter.mode.Some? {
      FilterSpec(byDifficulty, (s: Session) => s.mode == filter.mode.value);
    }
  }

  /** A truthy positive limit keeps the first sessions of the unlimited result, at most that many. */
  lemma ApplyFilterWithLimit(listing: seq<Session>, filter: SessionFilter)
    requires filter.limit.Some? && filter.limit.value > 0
    ensures var all := ApplyFilter(listing, filter.(limit := None));
      var result := ApplyFilter(listing, filter);
      |result| == (if filter.limit.value < |all| then filter.limit.value else |all|) &&
      result == all[..|result|]
  {
  }

  /** The difficulty and mode options together keep exactly what both conditions keep. */
  lemma BothFiltersAreConjunction(listing: seq<Session>, d: Practice.Difficulty, m: Mode)
    ensures ApplyFilter(listing, SessionFilter(Some(d), Some(m), None)) ==
      Filter(listing, (s: Session) => s.difficulty == d && s.mode == m)
  {
    FilterTwice(listing, (s: Session) => s.difficulty == d, (s: Session) => s.mode == m,
      (s: Session) => s.difficulty == d && s.mode == m);
  }

  /** A limit of 0 means no limit for getSessions but an empty list for getRecentSessions. */
  lemma ZeroLimitDiffers(listing: seq<Session>)
    requires listing != []
    ensures ApplyFilter(listing, SessionFilter(None, None, Some(0))) == listing
    ensures TakeNewest(listing, 0) == []
  {
  }

  /** Saving a new id and then deleting it leaves the table as it was. */
  lemma SaveThenDeleteRestores(table: map<string, Session>, id: string, s: Session)
    requires id !in table
    ensures table[id := s] - {id} == table
  {
  }

  /** Updates compose: applying two in turn is applying their combination, later fields winning. */
  lemma MergeComposes(current: Settings, first: SettingsUpdate, second: SettingsUpdate)
    ensures Merge(Merge(current, first), second) == Merge(current, SettingsUpdate(
      if second.theme.Some? then second.theme else first.theme,
      if second.soundEnabled.Some? then second.soundEnabled else first.soundEnabled,
      if second.defaultDifficulty.Some? then second.defaultDifficulty else first.defaultDifficulty))
  {
  }

  /** An empty update changes nothing, and repeating an update changes nothing more. */
  lemma MergeIdentityAndIdempotence(current: Settings, updates: SettingsUpdate)
    ensures Merge(current, SettingsUpdate(None, None, None)) == current
    ensures Merge(Merge(current, updates), updates) == Merge(current, updates)
  {
  }

  /** The settings the tests expect: defaults on an empty table, and a partial update over them. */
  lemma SettingsExamples()
    ensures CurrentSettings(map[]) == Settings("user-1", Light, true, Practice.Beginner)
    ensures Merge(CurrentSettings(map[]), SettingsUpdate(Some(Dark), None, None)) ==
      Settings("user-1", Dark, true, Practice.Beginner)
  {
  }
}
