/** The projects page: the tag filter the visitor toggles, the two project
    lists read from the database, the decision whether a project card is
    shown, and the tag line printed on a card. The database query is not
    modelled: its results are parameters. */
module Projects {
  import opened Common

  /** A card's data. `image` and `sim` are optional. */
  datatype Project = Project(title: string, desc: string, image: Option<string>, repo: string,
                             sim: Option<string>, tags: seq<string>)

  /** One document of the "projects" collection: its id is the title. */
  datatype ProjectDoc = ProjectDoc(id: string, desc: string, image: Option<string>, repo: string,
                                   sim: Option<string>, tags: seq<string>, featured: bool)

  function ToProject(d: ProjectDoc): Project {
    Project(d.id, d.desc, d.image, d.repo, d.sim, d.tags)
  }

  /** The projects, in query order, of the documents whose `featured` flag
      is `featured`. */
  function Selected(docs: seq<ProjectDoc>, featured: bool): seq<Project>
    decreases |docs|
  {
    if |docs| == 0 then []
    else
      var last := docs[|docs| - 1];
      Selected(docs[..|docs| - 1], featured) + (if last.featured == featured then [ToProject(last)] else [])
  }

  /** Every project of every document. */
  function AllProjects(docs: seq<ProjectDoc>): seq<Project>
    decreases |docs|
  {
    if |docs| == 0 then [] else AllProjects(docs[..|docs| - 1]) + [ToProject(docs[|docs| - 1])]
  }

  /** Each document lands in exactly one of the two lists: together they hold
      every project once, no more and no fewer. */
  lemma {:induction false} SelectedPartition(docs: seq<ProjectDoc>)
    ensures multiset(Selected(docs, true)) + multiset(Selected(docs, false)) == multiset(AllProjects(docs))
    ensures |Selected(docs, true)| + |Selected(docs, false)| == |docs|
    decreases |docs|
  {
    if |docs| > 0 {
      SelectedPartition(docs[..|docs| - 1]);
    }
  }

  /** A project is in the list for `featured` exactly when some document with
      that flag gave it. */
  lemma {:induction false} SelectedMembers(docs: seq<ProjectDoc>, featured: bool, p: Project)
    ensures p in Selected(docs, featured) <==> exists i :: 0 <= i < |docs| && docs[i].featured == featured && ToProject(docs[i]) == p
    decreases |docs|
  {
    if |docs| > 0 {
      var init := docs[..|docs| - 1];
      SelectedMembers(init, featured, p);
      if exists i :: 0 <= i < |docs| && docs[i].featured == featured && ToProject(docs[i]) == p {
        var i :| 0 <= i < |docs| && docs[i].featured == featured && ToProject(docs[i]) == p;
        if i < |init| {
          assert init[i] == docs[i];
        }
      }
      if p in Selected(init, featured) {
        var i :| 0 <= i < |init| && init[i].featured == featured && ToProject(init[i]) == p;
        assert docs[i] == init[i];
      }
    }
  }

  /** A project's tags as the card prints them: joined with ", ". */
  function JoinTags(tags: seq<string>): string
    decreases |tags|
  {
    if |tags| == 0 then ""
    else if |tags| == 1 then tags[0]
    else JoinTags(tags[..|tags| - 1]) + ", " + tags[|tags| - 1]
  }

  function SumLengths(tags: seq<string>): nat
    decreases |tags|
  {
    if |tags| == 0 then 0 else SumLengths(tags[..|tags| - 1]) + |tags[|tags| - 1]|
  }

  /** The join reads the same from the front: the first tag, a separator, and
      the join of the rest. */
  lemma {:induction false} JoinTagsCons(t: string, tags: seq<string>)
    requires |tags| > 0
    ensures JoinTags([t] + tags) == t + ", " + JoinTags(tags)
    decreases |tags|
  {
    var all := [t] + tags;
    if |tags| == 1 {
      assert all[..|all| - 1] == [t];
    } else {
      var init := tags[..|tags| - 1];
      assert all[..|all| - 1] == [t] + init;
      JoinTagsCons(t, init);
    }
  }

  /** The tags plus one separator between each neighbouring pair. */
  lemma {:induction false} JoinTagsLength(tags: seq<string>)
    requires |tags| > 0
    ensures |JoinTags(tags)| == SumLengths(tags) + 2 * (|tags| - 1)
    decreases |tags|
  {
    if |tags| > 1 {
      JoinTagsLength(tags[..|tags| - 1]);
    } else {
      assert tags[..0] == [];
    }
  }

  /** Each tag followed by ", ", as `forEach` builds it. */
  function Terminated(tags: seq<string>): string
    decreases |tags|
  {
    if |tags| == 0 then "" else Terminated(tags[..|tags| - 1]) + tags[|tags| - 1] + ", "
  }

  lemma {:induction false} TerminatedIsJoin(tags: seq<string>)
    requires |tags| > 0
    ensures Terminated(tags) == JoinTags(tags) + ", "
    decreases |tags|
  {
    if |tags| > 1 {
      TerminatedIsJoin(tags[..|tags| - 1]);
    } else {
      assert tags[..0] == [];
    }
  }

  /** A position clamped into `[0, |s|]`. */
  function Clamp(s: string, i: int): (j: nat)
    ensures j <= |s|
    ensures 0 <= i <= |s| ==> j == i
  {
    if i < 0 then 0 else if i > |s| then |s| else i
  }

  /** JavaScript's `String.prototype.substring`: both ends are clamped into
      the string, and the smaller one is the start. */
  function JsSubstring(s: string, start: int, end: int): (r: string)
    ensures 0 <= start <= end <= |s| ==> r == s[start..end]
    ensures end <= 0 && start <= 0 ==> r == ""
  {
    var a := Clamp(s, start);
    var b := Clamp(s, end);
    if a <= b then s[a..b] else s[b..a]
  }

  /** The ends may come in either order. */
  lemma JsSubstringSwap(s: string, start: int, end: int)
    ensures JsSubstring(s, start, end) == JsSubstring(s, end, start)
  {
  }

  /** The tag line of `ProjectCard`: append each tag and a separator, then
      drop the last two characters. */
  method UnravelTags(tags: seq<string>) returns (unraveled: string)
    ensures unraveled == JoinTags(tags)
  {
    unraveled := "";
    for i := 0 to |tags|
      invariant unraveled == Terminated(tags[..i])
    {
      assert tags[..i + 1][..i] == tags[..i];
      unraveled := unraveled + tags[i] + ", ";
    }
    assert tags[..|tags|] == tags;
    if |tags| > 0 {
      TerminatedIsJoin(tags);
    }
    unraveled := JsSubstring(unraveled, 0, |unraveled| - 2);
  }

  /** Some tag of the card contains `key` (`indexOf(key) != -1`). */
  predicate TagMatches(tags: seq<string>, key: string) {
    exists i :: 0 <= i < |tags| && Contains(tags[i], key)
  }

  /** Whether a card with these tags is shown: when no filter is enabled, or
      when some enabled filter occurs in one of its tags. */
  predicate Shown(filter: map<string, bool>, tags: seq<string>) {
    (forall k :: k in filter ==> !filter[k])
    || exists k :: k in filter && filter[k] && TagMatches(tags, k)
  }

  /** A checked tag's own button always shows the cards carrying that tag. */
  lemma EnableShowsTagged(filter: map<string, bool>, tag: string, tags: seq<string>)
    requires tag in tags
    ensures Shown(filter[tag := true], tags)
  {
    var i :| 0 <= i < |tags| && tags[i] == tag;
    assert StartsWith(tags[i], tag);
    assert Contains(tags[i], tag);
    assert TagMatches(tags, tag);
  }

  class Projects {
    /** `state.filter`: tag name to checked. */
    var filter: map<string, bool>
    var featuredData: seq<Project>
    var projectData: seq<Project>
    var tags: seq<string>

    /** The empty filter and three empty lists; `read` is issued here but
        completes later, so it is the separate `Read` below. */
    constructor ()
      ensures filter == map[] && featuredData == [] && projectData == [] && tags == []
    {
      filter := map[];
      featuredData := [];
      projectData := [];
      tags := [];
    }

    /** `handleChange`: the button's tag takes the button's checked state;
        every other entry stays. */
    method HandleChange(value: string, checked: bool)
      modifies this`filter
      ensures filter == old(filter)[value := checked]
      ensures forall k :: k in old(filter) && k != value ==> k in filter && filter[k] == old(filter)[k]
    {
      filter := filter[value := checked];
    }

    /** `read`, given what the two queries return: the tag ids are pushed in
        order, then each project onto the featured or the general list. */
    method Read(tagIds: seq<string>, docs: seq<ProjectDoc>)
      modifies this`tags, this`featuredData, this`projectData
      ensures tags == old(tags) + tagIds
      ensures featuredData == old(featuredData) + Selected(docs, true)
      ensures projectData == old(projectData) + Selected(docs, false)
    {
      for i := 0 to |tagIds|
        invariant tags == old(tags) + tagIds[..i]
        invariant featuredData == old(featuredData) && projectData == old(projectData)
      {
        assert tagIds[..i + 1] == tagIds[..i] + [tagIds[i]];
        tags := tags + [tagIds[i]];
      }
      assert tagIds[..|tagIds|] == tagIds;
      assert docs[..0] == [];
      for i := 0 to |docs|
        invariant tags == old(tags) + tagIds
        invariant featuredData == old(featuredData) + Selected(docs[..i], true)
        invariant projectData == old(projectData) + Selected(docs[..i], false)
      {
        assert docs[..i + 1][..i] == docs[..i];
        var projectObj := ToProject(docs[i]);
        if docs[i].featured {
          featuredData := featuredData + [projectObj];
        } else {
          projectData := projectData + [projectObj];
        }
      }
      assert docs[..|docs|] == docs;
    }

    /** `resolveFilter`: an empty filter shows every card; otherwise the
        first enabled key found in a tag shows it, and if none is found the
        card is shown only when no key was enabled. The keys are visited in
        an arbitrary order, so the verdict does not depend on it. */
    method ResolveFilter(cardTags: seq<string>) returns (show: bool)
      ensures |filter| == 0 ==> show
      ensures (exists k :: k in filter && filter[k] && TagMatches(cardTags, k)) ==> show
      ensures (forall k :: k in filter ==> !filter[k]) ==> show
      ensures ((exists k :: k in filter && filter[k])
               && (forall k :: k in filter && filter[k] ==> !TagMatches(cardTags, k))) ==> !show
      ensures show == Shown(filter, cardTags)
    {
      if |filter| == 0 {
        return true;
      }
      var filtersDisabled := true;
      var remaining := filter.Keys;
      while remaining != {}
        invariant remaining <= filter.Keys
        invariant filtersDisabled <==> forall k :: k in filter && k !in remaining ==> !filter[k]
        invariant forall k :: k in filter && k !in remaining && filter[k] ==> !TagMatches(cardTags, k)
        decreases |remaining|
      {
        var key :| key in remaining;
        if filter[key] {
          filtersDisabled := false;
          if exists i :: 0 <= i < |cardTags| && Contains(cardTags[i], key) {
            return true;
          }
        }
        remaining := remaining - {key};
      }
      return filtersDisabled;
    }
  }
}
