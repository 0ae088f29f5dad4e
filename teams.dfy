/** The static team table shared by both script files, the region filter the
    filter buttons apply to it, and the lookup by id behind the detail modal. */
module Teams {

  import opened Wrappers

  /** One record of the compiled-in table. */
  datatype Team = Team(
    id: int,
    name: string,
    country: string,
    flag: string,
    region: string,
    players: nat,
    coach: string,
    founded: nat,
    achievements: seq<string>,
    description: string)

  /** The value of a filter button's `data-filter` that selects every team. */
  const AllFilter: string := "all"

  /** The eight records, in table order. */
  const TeamsData: seq<Team> := [
    Team(1, "German Eagles", "Germany", "🇩🇪", "western", 6, "Hans Mueller", 2010,
         ["European Championship 2022", "World Championship Bronze 2021"],
         "One of Europe's strongest teams with exceptional defensive skills and tactical awareness."),
    Team(2, "Spanish Bulls", "Spain", "🇪🇸", "southern", 7, "Carlos Rodriguez", 2008,
         ["European Championship Silver 2020", "Mediterranean Cup 2021"],
         "Known for their aggressive playing style and powerful offensive strategies."),
    Team(3, "French Lions", "France", "🇫🇷", "western", 6, "Marie Dubois", 2012,
         ["European Championship 2019", "World Championship Semifinalist 2022"],
         "Technical excellence and teamwork define this championship-winning squad."),
    Team(4, "Italian Stallions", "Italy", "🇮🇹", "southern", 8, "Giuseppe Romano", 2015,
         ["European Championship Bronze 2021", "Regional Championship 2022"],
         "Rising stars with incredible potential and determination to succeed."),
    Team(5, "Polish Eagles", "Poland", "🇵🇱", "eastern", 6, "Piotr Kowalski", 2009,
         ["Eastern European Championship 2020", "World Championship Participant 2021"],
         "Disciplined team with strong fundamentals and excellent court positioning."),
    Team(6, "Swedish Wolves", "Sweden", "🇸🇪", "northern", 7, "Erik Lindqvist", 2011,
         ["Nordic Championship 2021", "European Championship Semifinalist 2020"],
         "Fast-paced team known for their quick transitions and strategic gameplay."),
    Team(7, "Dutch Storm", "Netherlands", "🇳🇱", "western", 6, "Jan van Berg", 2013,
         ["Benelux Championship 2022", "European Championship Qualifier 2021"],
         "Innovative team that brings creativity and unpredictability to every match."),
    Team(8, "Greek Titans", "Greece", "🇬🇷", "southern", 8, "Dimitris Papadopoulos", 2007,
         ["Host Nation Advantage", "Balkan Championship 2021"],
         "The host nation's pride, playing with home crowd support and local knowledge.")
  ]

  /** No two records share an id. */
  predicate UniqueIds(teams: seq<Team>) {
    forall i, j :: 0 <= i < j < |teams| ==> teams[i].id != teams[j].id
  }

  /** `teams.filter(team => team.region === region)`: the records of the
      given region, in their original relative order. */
  function FilterRegion(teams: seq<Team>, region: string): (r: seq<Team>)
    ensures |r| <= |teams|
  {
    if teams == [] then []
    else if teams[0].region == region then [teams[0]] + FilterRegion(teams[1..], region)
    else FilterRegion(teams[1..], region)
  }

  /** A record is listed exactly when it is in the input and of the region. */
  lemma {:induction false} FilterRegionMembers(teams: seq<Team>, region: string)
    ensures forall t :: t in FilterRegion(teams, region) <==> t in teams && t.region == region
  {
    if teams != [] {
      FilterRegionMembers(teams[1..], region);
      assert forall t :: t in teams <==> t == teams[0] || t in teams[1..];
    }
  }

  /** What a filter button click hands to `renderTeams`: the whole table for
      `"all"`, otherwise the same-region subsequence of the table. */
  function SelectTeams(table: seq<Team>, filter: string): (r: seq<Team>)
    ensures |r| <= |table|
    ensures filter == AllFilter ==> r == table
  {
    if filter == AllFilter then table else FilterRegion(table, filter)
  }

  /** The number of records of `region` in `teams`: the position at which the
      next record of that region lands in a filtered listing. */
  function CountRegion(teams: seq<Team>, region: string): nat {
    if teams == [] then 0
    else (if teams[|teams| - 1].region == region then 1 else 0) + CountRegion(teams[..|teams| - 1], region)
  }

  /** The filtered listing is exactly the matching records, in order: it holds
      as many records as match, and the record at table position `j`, when it
      matches, sits at position "number of matches before `j`". Since those
      positions are distinct and cover `0 .. |r|-1`, this fixes `r` entirely. */
  lemma {:induction false} FilterRegionIsOrderedSubsequence(teams: seq<Team>, region: string)
    ensures |FilterRegion(teams, region)| == CountRegion(teams, region)
    ensures forall j :: 0 <= j < |teams| && teams[j].region == region ==>
              CountRegion(teams[..j], region) < |FilterRegion(teams, region)| &&
              FilterRegion(teams, region)[CountRegion(teams[..j], region)] == teams[j]
  {
    if teams != [] {
      var n := |teams| - 1;
      var front := teams[..n];
      FilterRegionAppend(front, [teams[n]], region);
      assert front + [teams[n]] == teams;
      FilterRegionIsOrderedSubsequence(front, region);
      forall j | 0 <= j < |teams| && teams[j].region == region
        ensures CountRegion(teams[..j], region) < |FilterRegion(teams, region)|
        ensures FilterRegion(teams, region)[CountRegion(teams[..j], region)] == teams[j]
      {
        if j < n {
          assert teams[..j] == front[..j];
          CountRegionPrefix(front, j, region);
        } else {
          assert teams[..j] == front;
        }
      }
    }
  }

  /** Filtering distributes over concatenation. */
  lemma {:induction false} FilterRegionAppend(s: seq<Team>, t: seq<Team>, region: string)
    ensures FilterRegion(s + t, region) == FilterRegion(s, region) + FilterRegion(t, region)
  {
    if s == [] {
      assert s + t == t;
    } else {
      assert (s + t)[1..] == s[1..] + t;
      FilterRegionAppend(s[1..], t, region);
    }
  }

  /** Fewer records never hold more matches. */
  lemma {:induction false} CountRegionPrefix(teams: seq<Team>, j: nat, region: string)
    requires j <= |teams|
    ensures CountRegion(teams[..j], region) <= CountRegion(teams, region)
    ensures j < |teams| && teams[j].region == region ==> CountRegion(teams[..j], region) < CountRegion(teams, region)
    decreases |teams|
  {
    if j < |teams| {
      var n := |teams| - 1;
      if j < n {
        assert teams[..n][..j] == teams[..j];
        CountRegionPrefix(teams[..n], j, region);
      } else {
        assert teams[..j] == teams[..n];
      }
    } else {
      assert teams[..j] == teams;
    }
  }

  /** `teams.find(t => t.id === id)`: the first record carrying `id`, or
      nothing when no record does. */
  function Find(teams: seq<Team>, id: int): (r: Option<Team>)
    ensures r.Some? ==> r.value in teams && r.value.id == id
    ensures r.None? <==> forall t :: t in teams ==> t.id != id
    ensures r.Some? ==> exists i :: 0 <= i < |teams| && teams[i] == r.value &&
                                   (forall k :: 0 <= k < i ==> teams[k].id != id)
  {
    if teams == [] then None
    else if teams[0].id == id then Some(teams[0])
    else
      var r := Find(teams[1..], id);
      assert r.Some? ==> exists i :: 0 <= i < |teams| - 1 && teams[1..][i] == r.value &&
                                     forall k :: 0 <= k < i ==> teams[1..][k].id != id;
      assert r.Some? ==> exists i :: 0 <= i < |teams| && teams[i] == r.value &&
                                     forall k :: 0 <= k < i ==> teams[k].id != id by {
        if r.Some? {
          var i :| 0 <= i < |teams| - 1 && teams[1..][i] == r.value &&
                   forall k :: 0 <= k < i ==> teams[1..][k].id != id;
          assert teams[i + 1] == r.value;
          forall k | 0 <= k < i + 1 ensures teams[k].id != id {
            if k > 0 { assert teams[k] == teams[1..][k - 1]; }
          }
        }
      }
      r
  }

  /** Ids in the table are unique, so a lookup returns the record at that
      position of the table. */
  lemma {:induction false} FindUnique(teams: seq<Team>, i: nat)
    requires UniqueIds(teams) && i < |teams|
    ensures Find(teams, teams[i].id) == Some(teams[i])
  {
    var r := Find(teams, teams[i].id);
    var j :| 0 <= j < |teams| && teams[j] == r.value &&
             forall k :: 0 <= k < j ==> teams[k].id != teams[i].id;
    assert j == i;
  }

  /** In a table with unique ids, every member is what a lookup of its own id
      returns. */
  lemma FindMember(teams: seq<Team>, t: Team)
    requires UniqueIds(teams) && t in teams
    ensures Find(teams, t.id) == Some(t)
  {
    var i :| 0 <= i < |teams| && teams[i] == t;
    FindUnique(teams, i);
  }

  /** The table's ids are unique. */
  lemma TableIdsUnique()
    ensures UniqueIds(TeamsData)
  {
  }

  /** Ids `1 .. 8` are exactly the ids the table resolves; id `k` resolves to
      the `k`-th record. */
  lemma TableLookup(id: int)
    ensures Find(TeamsData, id).Some? <==> 1 <= id <= 8
    ensures 1 <= id <= 8 ==> Find(TeamsData, id) == Some(TeamsData[id - 1])
  {
    assert UniqueIds(TeamsData);
    if 1 <= id <= 8 {
      assert TeamsData[id - 1].id == id;
      FindUnique(TeamsData, id - 1);
    } else {
      forall t | t in TeamsData ensures t.id != id { }
    }
  }

  /** The regions of the table, filter by filter: western holds ids 1, 3 and
      7, southern 2, 4 and 8, eastern 5 and northern 6. */
  lemma RegionListings()
    ensures SelectTeams(TeamsData, AllFilter) == TeamsData && |SelectTeams(TeamsData, AllFilter)| == 8
    ensures SelectTeams(TeamsData, "western") == [TeamsData[0], TeamsData[2], TeamsData[6]]
    ensures SelectTeams(TeamsData, "southern") == [TeamsData[1], TeamsData[3], TeamsData[7]]
    ensures SelectTeams(TeamsData, "eastern") == [TeamsData[4]]
    ensures SelectTeams(TeamsData, "northern") == [TeamsData[5]]
  {
    WesternListing();
    SouthernListing();
    EasternListing();
    NorthernListing();
  }

  lemma WesternListing()
    ensures FilterRegion(TeamsData, "western") == [TeamsData[0], TeamsData[2], TeamsData[6]]
  {
    var t := TeamsData;
    assert FilterRegion(t[8..], "western") == [];
    FilterFrom(7, "western");
    assert FilterRegion(t[7..], "western") == [];
    FilterFrom(6, "western");
    assert FilterRegion(t[6..], "western") == [t[6]];
    FilterFrom(5, "western");
    assert FilterRegion(t[5..], "western") == [t[6]];
    FilterFrom(4, "western");
    assert FilterRegion(t[4..], "western") == [t[6]];
    FilterFrom(3, "western");
    assert FilterRegion(t[3..], "western") == [t[6]];
    FilterFrom(2, "western");
    assert FilterRegion(t[2..], "western") == [t[2], t[6]];
    FilterFrom(1, "western");
    assert FilterRegion(t[1..], "western") == [t[2], t[6]];
    FilterFrom(0, "western");
    assert FilterRegion(t[0..], "western") == [t[0], t[2], t[6]];
    assert t[0..] == t;
  }

  lemma SouthernListing()
    ensures FilterRegion(TeamsData, "southern") == [TeamsData[1], TeamsData[3], TeamsData[7]]
  {
    var t := TeamsData;
    assert FilterRegion(t[8..], "southern") == [];
    FilterFrom(7, "southern");
    assert FilterRegion(t[7..], "southern") == [t[7]];
    FilterFrom(6, "southern");
    assert FilterRegion(t[6..], "southern") == [t[7]];
    FilterFrom(5, "southern");
    assert FilterRegion(t[5..], "southern") == [t[7]];
    FilterFrom(4, "southern");
    assert FilterRegion(t[4..], "southern") == [t[7]];
    FilterFrom(3, "southern");
    assert FilterRegion(t[3..], "southern") == [t[3], t[7]];
    FilterFrom(2, "southern");
    assert FilterRegion(t[2..], "southern") == [t[3], t[7]];
    FilterFrom(1, "southern");
    assert FilterRegion(t[1..], "southern") == [t[1], t[3], t[7]];
    FilterFrom(0, "southern");
    assert FilterRegion(t[0..], "southern") == [t[1], t[3], t[7]];
    assert t[0..] == t;
  }

  lemma EasternListing()
    ensures FilterRegion(TeamsData, "eastern") == [TeamsData[4]]
  {
    var t := TeamsData;
    assert FilterRegion(t[8..], "eastern") == [];
    FilterFrom(7, "eastern");
    assert FilterRegion(t[7..], "eastern") == [];
    FilterFrom(6, "eastern");
    assert FilterRegion(t[6..], "eastern") == [];
    FilterFrom(5, "eastern");
    assert FilterRegion(t[5..], "eastern") == [];
    FilterFrom(4, "eastern");
    assert FilterRegion(t[4..], "eastern") == [t[4]];
    FilterFrom(3, "eastern");
    assert FilterRegion(t[3..], "eastern") == [t[4]];
    FilterFrom(2, "eastern");
    assert FilterRegion(t[2..], "eastern") == [t[4]];
    FilterFrom(1, "eastern");
    assert FilterRegion(t[1..], "eastern") == [t[4]];
    FilterFrom(0, "eastern");
    assert FilterRegion(t[0..], "eastern") == [t[4]];
    assert t[0..] == t;
  }

  lemma NorthernListing()
    ensures FilterRegion(TeamsData, "northern") == [TeamsData[5]]
  {
    var t := TeamsData;
    assert FilterRegion(t[8..], "northern") == [];
    FilterFrom(7, "northern");
    assert FilterRegion(t[7..], "northern") == [];
    FilterFrom(6, "northern");
    assert FilterRegion(t[6..], "northern") == [];
    FilterFrom(5, "northern");
    assert FilterRegion(t[5..], "northern") == [t[5]];
    FilterFrom(4, "northern");
    assert FilterRegion(t[4..], "northern") == [t[5]];
    FilterFrom(3, "northern");
    assert FilterRegion(t[3..], "northern") == [t[5]];
    FilterFrom(2, "northern");
    assert FilterRegion(t[2..], "northern") == [t[5]];
    FilterFrom(1, "northern");
    assert FilterRegion(t[1..], "northern") == [t[5]];
    FilterFrom(0, "northern");
    assert FilterRegion(t[0..], "northern") == [t[5]];
    assert t[0..] == t;
  }

  /** One step of the filter over the table's suffix from position `k`. */
  lemma FilterFrom(k: nat, region: string)
    requires k < |TeamsData|
    ensures FilterRegion(TeamsData[k..], region) ==
      (if TeamsData[k].region == region then [TeamsData[k]] else []) + FilterRegion(TeamsData[k + 1..], region)
  {
    assert TeamsData[k..][1..] == TeamsData[k + 1..];
  }
}
