/** The `MyLeads` inbox page: the list shown for a search text and a filter
    tab. Follow-up and contact dates are day numbers. */
module MyLeads {

  import opened Wrappers
  import opened Seqs

  datatype InboxStatus = New | Contacted | Proposal | Negotiation | Hot | Closed

  datatype InboxLead = InboxLead(
    id: string,
    name: string,
    mobile: string,
    email: string,
    status: InboxStatus,
    followUpDate: int,
    lastContacted: Option<int>)

  // ---------------------------------------------------------------- text

  /** `toLowerCase` on one character, for the ASCII letters. */
  function LowerChar(c: char): char {
    if 'A' <= c <= 'Z' then (c as int + 32) as char else c
  }

  /** `s.toLowerCase()`, for the ASCII letters. */
  function Lower(s: string): (r: string)
    ensures |r| == |s|
    ensures forall i :: 0 <= i < |s| ==> r[i] == LowerChar(s[i])
  {
    seq(|s|, i requires 0 <= i < |s| => LowerChar(s[i]))
  }

  /** Lower-casing twice is lower-casing once. */
  lemma LowerIdempotent(s: string)
    ensures Lower(Lower(s)) == Lower(s)
  {
    assert forall i :: 0 <= i < |s| ==> LowerChar(LowerChar(s[i])) == LowerChar(s[i]);
  }

  /** `s.includes(sub)`: `sub` starts at the front, or somewhere further on. */
  predicate Contains(s: string, sub: string)
    decreases |s|
  {
    if |sub| > |s| then false
    else if sub <= s then true
    else Contains(s[1..], sub)
  }

  /** `sub` occurs in `s` starting at position `i`. */
  predicate OccursAt(s: string, sub: string, i: int) {
    0 <= i <= |s| - |sub| && s[i..i + |sub|] == sub
  }

  /** `Contains` holds exactly when `sub` occurs at some position of `s`. */
  lemma {:induction false} ContainsIsSubstring(s: string, sub: string)
    ensures Contains(s, sub) <==> exists i :: OccursAt(s, sub, i)
    decreases |s|
  {
    if |sub| <= |s| && !(sub <= s) {
      ContainsIsSubstring(s[1..], sub);
      if Contains(s, sub) {
        var j :| OccursAt(s[1..], sub, j);
        assert s[1..][j..j + |sub|] == s[j + 1..j + 1 + |sub|];
        assert OccursAt(s, sub, j + 1);
      }
      if exists i :: OccursAt(s, sub, i) {
        var i :| OccursAt(s, sub, i);
        assert i != 0;
        assert s[1..][i - 1..i - 1 + |sub|] == s[i..i + |sub|];
        assert OccursAt(s[1..], sub, i - 1);
      }
    } else if |sub| <= |s| {
      assert s[0..|sub|] == sub;
      assert OccursAt(s, sub, 0);
    } else {
      forall i ensures !OccursAt(s, sub, i) {
      }
    }
  }

  /** The empty search text occurs in every string. */
  lemma EmptyOccursEverywhere(s: string)
    ensures Contains(s, "")
  {
  }

  // ---------------------------------------------------------------- filter

  /** The search: the lower-cased text in the lower-cased name or email, or
      in the mobile number as typed. */
  predicate MatchesSearch(l: InboxLead, query: string) {
    var q := Lower(query);
    Contains(Lower(l.name), q) || Contains(Lower(l.email), q) || Contains(l.mobile, q)
  }

  /** The tab predicate; an unknown tab (the `all` tab included) keeps
      everything. */
  predicate TabKeeps(l: InboxLead, tab: string, today: int) {
    match tab
    case "new" => l.status == New
    case "contacted" => l.lastContacted == Some(today)
    case "overdue" => l.followUpDate < today && l.status != Closed
    case "hot" => l.status == Hot
    case _ => true
  }

  /** `filteredLeads`: the leads that match the search and the tab, in list
      order. */
  function FilteredLeads(leads: seq<InboxLead>, tab: string, query: string, today: int): (r: seq<InboxLead>)
    ensures forall l :: l in r <==> l in leads && MatchesSearch(l, query) && TabKeeps(l, tab, today)
    ensures forall l ::
      multiset(r)[l] == (if MatchesSearch(l, query) && TabKeeps(l, tab, today) then multiset(leads)[l] else 0)
    ensures SubSeq(r, leads)
    ensures |r| <= |leads|
  {
    FilterCount(leads, (l: InboxLead) => MatchesSearch(l, query) && TabKeeps(l, tab, today));
    FilterIsSubSeq(leads, (l: InboxLead) => MatchesSearch(l, query) && TabKeeps(l, tab, today));
    Filter(leads, (l: InboxLead) => MatchesSearch(l, query) && TabKeeps(l, tab, today))
  }

  /** The four named tabs, each as the tab `switch` states it. */
  lemma TabMeanings(l: InboxLead, today: int)
    ensures TabKeeps(l, "new", today) <==> l.status == New
    ensures TabKeeps(l, "hot", today) <==> l.status == Hot
    ensures TabKeeps(l, "contacted", today) <==> l.lastContacted == Some(today)
    ensures TabKeeps(l, "overdue", today) <==> l.followUpDate < today && l.status != Closed
    ensures TabKeeps(l, "all", today)
  {
  }

  /** The page as it opens, on `all` with an empty search, shows every lead
      in list order. */
  lemma OpeningViewShowsAll(leads: seq<InboxLead>, today: int)
    ensures FilteredLeads(leads, "all", "", today) == leads
  {
    forall l | l in leads ensures MatchesSearch(l, "") && TabKeeps(l, "all", today) {
      EmptyOccursEverywhere(Lower(l.name));
    }
    FilterKeepsAll(leads, (l: InboxLead) => MatchesSearch(l, "") && TabKeeps(l, "all", today));
  }

  /** The case of the search text does not matter: searching for it and for
      its lower-cased form show the same leads. */
  lemma SearchIgnoresQueryCase(l: InboxLead, query: string)
    ensures MatchesSearch(l, query) == MatchesSearch(l, Lower(query))
  {
    LowerIdempotent(query);
  }

  /** An upper-case query finds a lead by its name. */
  lemma SearchByNameExample()
    ensures MatchesSearch(InboxLead("1", "Rahim Uddin", "+8801711223344", "rahim@gmail.com", New, 1, None), "RAHIM")
  {
    var name := Lower("Rahim Uddin");
    var q := Lower("RAHIM");
    assert q == "rahim";
    assert name[..5] == "rahim";
    assert OccursAt(name, q, 0);
    ContainsIsSubstring(name, q);
  }

  /** Digits in the middle of a mobile number find the lead. */
  lemma SearchByMobileExample()
    ensures MatchesSearch(InboxLead("1", "Rahim Uddin", "+8801711223344", "rahim@gmail.com", New, 1, None), "0171")
  {
    var mobile := "+8801711223344";
    var q := Lower("0171");
    assert q == "0171";
    assert mobile[3..7] == "0171";
    assert OccursAt(mobile, q, 3);
    ContainsIsSubstring(mobile, q);
  }
}
