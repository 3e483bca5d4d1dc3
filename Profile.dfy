/** The profile page of src/pages/Profile.jsx: the statistics it loads, the
    points, badges and rank it derives from them, and the profile fields it
    edits. Queries are outside the model; their results are parameters. */
module ProfilePage {
  import opened Wrappers
  import opened Records
  import SupabaseClient

  datatype ProfileRecord = ProfileRecord(username: string, bio: string, location: string, interests: seq<string>)

  const EmptyProfile := ProfileRecord("", "", "", [])

  datatype Stats = Stats(
    peopleAdded: nat,
    relationsCreated: nat,
    sourcesVerified: nat,
    totalPoints: nat,
    memberSince: Option<string>
  )

  const InitialStats := Stats(0, 0, 0, 0, None)

  /** Points weigh a person 10, a relation 5 and a verified source 20. */
  predicate PointsConsistent(s: Stats) {
    s.totalPoints == 10 * s.peopleAdded + 5 * s.relationsCreated + 20 * s.sourcesVerified
  }

  /** The record `loadStats` stores once the three queries returned. */
  function LoadedStats(q: StatsQueries, memberSince: string): (s: Stats)
    ensures s.peopleAdded == CountOf(q.people)
    ensures s.relationsCreated == CountOf(q.relations)
    ensures s.sourcesVerified == CountOf(q.links)
    ensures PointsConsistent(s) && s.memberSince == Some(memberSince)
  {
    var peopleCount := CountOf(q.people);
    var relationsCount := CountOf(q.relations);
    var linksCount := CountOf(q.links);
    Stats(peopleCount, relationsCount, linksCount, peopleCount * 10 + relationsCount * 5 + linksCount * 20, Some(memberSince))
  }

  /** The profile page and `utils.getUserStats` count and score the same
      query results identically. */
  lemma LoadedStatsAgreeWithUserStats(q: StatsQueries, memberSince: string)
    ensures var s, u := LoadedStats(q, memberSince), SupabaseClient.GetUserStats(Some(q));
      s.peopleAdded == u.peopleCount && s.relationsCreated == u.relationsCount &&
      s.sourcesVerified == u.verifiedLinks && s.totalPoints == u.totalPoints
  {
  }

  /** The sidebar items in the order they are rendered. */
  datatype PanelItem = Collector | Verifier | Expert | StartContributing

  function RenderRank(item: PanelItem): nat {
    match item
    case Collector => 0
    case Verifier => 1
    case Expert => 2
    case StartContributing => 3
  }

  /** The badge sidebar: "Collectionneur" from 10 people, "Vérificateur" from
      5 verified sources, "Expert" from 100 points, and the prompt to start
      contributing when no person and no source was added. */
  function BadgePanel(s: Stats): (items: seq<PanelItem>)
    ensures Collector in items <==> s.peopleAdded >= 10
    ensures Verifier in items <==> s.sourcesVerified >= 5
    ensures Expert in items <==> s.totalPoints >= 100
    ensures StartContributing in items <==> s.peopleAdded == 0 && s.sourcesVerified == 0
    ensures forall i, j :: 0 <= i < j < |items| ==> RenderRank(items[i]) < RenderRank(items[j])
  {
    (if s.peopleAdded >= 10 then [Collector] else [])
    + (if s.sourcesVerified >= 5 then [Verifier] else [])
    + (if s.totalPoints >= 100 then [Expert] else [])
    + (if s.peopleAdded == 0 && s.sourcesVerified == 0 then [StartContributing] else [])
  }

  const ExpertRank := "Expert"
  const BeginnerRank := "Débutant"

  /** The rank in the header: "Expert" only above 100 points. */
  function Rank(s: Stats): (rank: string)
    ensures rank == ExpertRank || rank == BeginnerRank
    ensures rank == ExpertRank <==> s.totalPoints > 100
  {
    if s.totalPoints > 100 then ExpertRank else BeginnerRank
  }

  /** The header rank and the Expert badge use different thresholds: they
      disagree exactly at 100 points, where the badge shows and the rank
      still reads "Débutant". */
  lemma BadgeAndRankDisagreeOnlyAt100(s: Stats)
    ensures (Expert in BadgePanel(s)) != (Rank(s) == ExpertRank) <==> s.totalPoints == 100
    ensures s.totalPoints == 100 ==> Expert in BadgePanel(s) && Rank(s) == BeginnerRank
    ensures Rank(s) == ExpertRank ==> Expert in BadgePanel(s)
  {
  }

  /** The people badge threshold is inclusive: 10 people earn it, 9 do not. */
  lemma CollectorThreshold(s: Stats)
    ensures s.peopleAdded == 10 ==> Collector in BadgePanel(s)
    ensures s.peopleAdded == 9 ==> Collector !in BadgePanel(s)
  {
  }

  /** The prompt ignores relations: someone with no people and no sources
      but 20 or more relations sees the prompt next to the Expert badge. */
  lemma PromptBesideExpertBadge(q: StatsQueries, memberSince: string)
    requires CountOf(q.people) == 0 && CountOf(q.links) == 0 && CountOf(q.relations) >= 20
    ensures StartContributing in BadgePanel(LoadedStats(q, memberSince))
    ensures Expert in BadgePanel(LoadedStats(q, memberSince))
  {
  }

  /** `email.split('@')[0]`: the text before the first '@', all of it when
      there is none. */
  function BeforeAt(email: string): (local: string)
    ensures local <= email && '@' !in local
    ensures |local| == |email| || email[|local|] == '@'
  {
    if email == [] || email[0] == '@' then [] else [email[0]] + BeforeAt(email[1..])
  }

  /** The header name: the username when set, otherwise the part of the
      account e-mail before '@'; nothing when neither exists. */
  function DisplayName(profile: ProfileRecord, email: Option<string>): (name: Option<string>)
    ensures profile.username != "" ==> name == Some(profile.username)
    ensures profile.username == "" ==> (name.Some? <==> email.Some?)
    ensures profile.username == "" && email.Some? ==> name.value <= email.value && '@' !in name.value
    ensures profile.username == "" && email.Some? ==>
      |name.value| == |email.value| || email.value[|name.value|] == '@'
  {
    if profile.username != "" then Some(profile.username)
    else match email
      case None => None
      case Some(e) => Some(BeforeAt(e))
  }

  /** The page state: the profile record being edited, the statistics, and
      whether the statistics are still loading. */
  class Profile {
    var profile: ProfileRecord
    var stats: Stats
    var loading: bool

    ghost predicate Valid()
      reads this
    {
      PointsConsistent(stats)
    }

    constructor()
      ensures profile == EmptyProfile && stats == InitialStats && loading
      ensures Valid()
    {
      profile := EmptyProfile;
      stats := InitialStats;
      loading := true;
    }

    /** `loadProfile`: a returned row replaces the record; nothing otherwise. */
    method LoadProfile(data: Option<ProfileRecord>)
      requires Valid()
      modifies this`profile
      ensures profile == data.GetOr(old(profile)) && Valid()
    {
      if data.Some? {
        profile := data.value;
      }
    }

    /** `loadStats`: when the batch resolved (`Some`) the counts and points
      replace the statistics; when it threw they stay. Loading ends either
      way, and the points stay consistent with the counts. */
    method LoadStats(outcome: Option<StatsQueries>, memberSince: string)
      requires Valid()
      modifies this`stats, this`loading
      ensures outcome.Some? ==> stats == LoadedStats(outcome.value, memberSince)
      ensures outcome.None? ==> stats == old(stats)
      ensures !loading && Valid()
    {
      if outcome.Some? {
        stats := LoadedStats(outcome.value, memberSince);
      }
      loading := false;
    }

    /** The username field: only the username changes. */
    method EditUsername(value: string)
      requires Valid()
      modifies this`profile
      ensures profile.username == value && Valid()
      ensures profile.bio == old(profile.bio) && profile.location == old(profile.location)
      ensures profile.interests == old(profile.interests)
    {
      profile := profile.(username := value);
    }

    /** The bio field: only the bio changes. */
    method EditBio(value: string)
      requires Valid()
      modifies this`profile
      ensures profile.bio == value && Valid()
      ensures profile.username == old(profile.username) && profile.location == old(profile.location)
      ensures profile.interests == old(profile.interests)
    {
      profile := profile.(bio := value);
    }

    /** The location field: only the location changes. */
    method EditLocation(value: string)
      requires Valid()
      modifies this`profile
      ensures profile.location == value && Valid()
      ensures profile.username == old(profile.username) && profile.bio == old(profile.bio)
      ensures profile.interests == old(profile.interests)
    {
      profile := profile.(location := value);
    }
  }
}
