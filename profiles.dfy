/**
 * The saved-profile list of one user and the updates applied to it once the
 * datastore has answered. Each operation takes the datastore's answer as a
 * parameter: the data it returned, or the value it threw.
 */
module Profiles {
  import opened Wrappers
  import opened JsObject

  /** A saved weighting, as stored. */
  datatype Profile = Profile(
    id: string, name: string, description: Option<string>, weights: Record, cities: seq<string>,
    salaryUsd: real, nationality: Option<string>, createdAt: string, updatedAt: string)

  /** What a `catch` block receives: an `Error` with its message, or any other value. */
  datatype Thrown = ErrorWithMessage(message: string) | OtherValue

  /** The outcome of one datastore request. */
  datatype Remote<T> = Success(data: T) | Failure(thrown: Thrown)

  const FetchFailed: string := "Failed to fetch profiles"
  const CreateFailed: string := "Failed to create profile"
  const UpdateFailed: string := "Failed to update profile"
  const DeleteFailed: string := "Failed to delete profile"
  const ShareFailed: string := "Failed to create share link"
  const SharedFetchFailed: string := "Failed to fetch shared profile"

  /** `error instanceof Error ? error.message : fallback` */
  function ErrorText(thrown: Thrown, fallback: string): (text: string)
    ensures thrown.ErrorWithMessage? ==> text == thrown.message
    ensures thrown.OtherValue? ==> text == fallback
  {
    match thrown
    case ErrorWithMessage(m) => m
    case OtherValue => fallback
  }

  // ----- The list reducers -----

  /** `profiles.map(p => p.id === id ? data : p)` */
  function ReplaceById(profiles: seq<Profile>, id: string, data: Profile): (r: seq<Profile>)
    ensures |r| == |profiles|
  {
    if profiles == [] then []
    else [if profiles[0].id == id then data else profiles[0]] + ReplaceById(profiles[1..], id, data)
  }

  /** `profiles.filter(p => p.id !== id)` */
  function RemoveById(profiles: seq<Profile>, id: string): (r: seq<Profile>)
    ensures |r| <= |profiles|
  {
    if profiles == [] then []
    else (if profiles[0].id == id then [] else [profiles[0]]) + RemoveById(profiles[1..], id)
  }

  /** How many profiles carry the id. */
  function CountId(profiles: seq<Profile>, id: string): nat {
    if profiles == [] then 0
    else (if profiles[0].id == id then 1 else 0) + CountId(profiles[1..], id)
  }

  /** The update touches exactly the entries with the id: those become `data`, the rest stay. */
  lemma {:induction false} ReplaceByIdEntries(profiles: seq<Profile>, id: string, data: Profile)
    ensures forall i :: 0 <= i < |profiles| ==>
              ReplaceById(profiles, id, data)[i] == (if profiles[i].id == id then data else profiles[i])
  {
    if profiles != [] {
      ReplaceByIdEntries(profiles[1..], id, data);
      var r := ReplaceById(profiles, id, data);
      forall i | 1 <= i < |profiles|
        ensures r[i] == (if profiles[i].id == id then data else profiles[i])
      {
        assert r[i] == ReplaceById(profiles[1..], id, data)[i - 1];
        assert profiles[1..][i - 1] == profiles[i];
      }
    }
  }

  /** Updating an id no profile carries changes nothing. */
  lemma {:induction false} ReplaceMissingId(profiles: seq<Profile>, id: string, data: Profile)
    requires CountId(profiles, id) == 0
    ensures ReplaceById(profiles, id, data) == profiles
  {
    if profiles != [] {
      ReplaceMissingId(profiles[1..], id, data);
      assert profiles == [profiles[0]] + profiles[1..];
    }
  }

  /** The delete keeps exactly the profiles with another id. */
  lemma {:induction false} RemoveByIdMembers(profiles: seq<Profile>, id: string, p: Profile)
    ensures p in RemoveById(profiles, id) <==> p in profiles && p.id != id
  {
    if profiles != [] {
      RemoveByIdMembers(profiles[1..], id, p);
      assert profiles == [profiles[0]] + profiles[1..];
    }
  }

  /** The delete removes one entry per profile with the id, and leaves none behind. */
  lemma {:induction false} RemoveByIdCount(profiles: seq<Profile>, id: string)
    ensures |RemoveById(profiles, id)| == |profiles| - CountId(profiles, id)
    ensures CountId(RemoveById(profiles, id), id) == 0
  {
    if profiles != [] {
      RemoveByIdCount(profiles[1..], id);
      var rest := RemoveById(profiles[1..], id);
      if profiles[0].id != id {
        assert RemoveById(profiles, id) == [profiles[0]] + rest;
        assert ([profiles[0]] + rest)[1..] == rest;
      } else {
        assert RemoveById(profiles, id) == [] + rest == rest;
      }
    }
  }

  /** The delete keeps the others in their order: removing twice is removing once. */
  lemma {:induction false} RemoveByIdIdempotent(profiles: seq<Profile>, id: string)
    ensures RemoveById(RemoveById(profiles, id), id) == RemoveById(profiles, id)
  {
    RemoveByIdCount(profiles, id);
    RemoveMissingId(RemoveById(profiles, id), id);
  }

  lemma {:induction false} RemoveMissingId(profiles: seq<Profile>, id: string)
    requires CountId(profiles, id) == 0
    ensures RemoveById(profiles, id) == profiles
  {
    if profiles != [] {
      RemoveMissingId(profiles[1..], id);
      assert profiles == [profiles[0]] + profiles[1..];
    }
  }

  /** The delete distributes over a split of the list, so relative order is kept. */
  lemma {:induction false} RemoveByIdAppend(a: seq<Profile>, b: seq<Profile>, id: string)
    ensures RemoveById(a + b, id) == RemoveById(a, id) + RemoveById(b, id)
  {
    if a == [] {
      assert a + b == b;
    } else {
      assert (a + b)[0] == a[0] && (a + b)[1..] == a[1..] + b;
      RemoveByIdAppend(a[1..], b, id);
    }
  }

  // ----- Share links -----

  const SharedPath: string := "/shared/"
  const SharePrefix: string := "share_"

  /** `share_${random}` */
  function ShareToken(randomPart: string): (token: string)
    ensures |token| == |SharePrefix| + |randomPart|
    ensures token[..|SharePrefix|] == SharePrefix && token[|SharePrefix|..] == randomPart
  {
    SharePrefix + randomPart
  }

  /** `${origin}/shared/${shareToken}` */
  function ShareUrl(origin: string, token: string): string {
    origin + SharedPath + token
  }

  /** The link names its origin and its token, and the token can be read back from it. */
  lemma ShareUrlParts(origin: string, randomPart: string)
    ensures ShareUrl(origin, ShareToken(randomPart))[..|origin|] == origin
    ensures ShareUrl(origin, ShareToken(randomPart))[|origin|..|origin| + |SharedPath|] == SharedPath
    ensures ShareUrl(origin, ShareToken(randomPart))[|origin| + |SharedPath|..] == ShareToken(randomPart)
    ensures ShareUrl(origin, ShareToken(randomPart))[|origin| + |SharedPath|..][..|SharePrefix|] == SharePrefix
  {
    var url := ShareUrl(origin, ShareToken(randomPart));
    assert url == origin + SharedPath + ShareToken(randomPart);
  }

  // ----- The hook's state -----

  /** The state of `useProfiles` for one (possibly absent) user id. */
  class ProfilesState {
    var profiles: seq<Profile>
    var isLoading: bool
    var error: Option<string>
    const userId: Option<string>

    constructor(userId: Option<string>)
      ensures profiles == [] && !isLoading && error == None && this.userId == userId
    {
      this.userId := userId;
      profiles := [];
      isLoading := false;
      error := None;
    }

    /** `!userId` is false: an id is present and not the empty string. */
    predicate SignedIn()
      reads this
    {
      userId.Some? && userId.value != ""
    }

    /** The first half of `fetchProfiles`: nothing without a user, else the loading flag goes up. */
    method BeginFetch()
      modifies this
      ensures !SignedIn() ==> isLoading == old(isLoading)
      ensures SignedIn() ==> isLoading
      ensures profiles == old(profiles) && error == old(error)
    {
      if !SignedIn() {
        return;
      }
      isLoading := true;
    }

    /**
     * The second half of `fetchProfiles`: on success the list becomes the returned
     * rows (none when the datastore returned null) and an earlier error stays; on
     * failure the list stays and the error is recorded. Either way loading ends.
     */
    method CompleteFetch(outcome: Remote<Option<seq<Profile>>>)
      modifies this
      ensures !isLoading
      ensures outcome.Success? ==> profiles == outcome.data.GetOr([]) && error == old(error)
      ensures outcome.Failure? ==> profiles == old(profiles) && error == Some(ErrorText(outcome.thrown, FetchFailed))
    {
      match outcome
      case Success(data) =>
        profiles := data.GetOr([]);
        isLoading := false;
      case Failure(thrown) =>
        error := Some(ErrorText(thrown, FetchFailed));
        isLoading := false;
    }

    /** `fetchProfiles` with the datastore's answer given. */
    method FetchProfiles(outcome: Remote<Option<seq<Profile>>>)
      modifies this
      ensures !SignedIn() ==> profiles == old(profiles) && isLoading == old(isLoading) && error == old(error)
      ensures SignedIn() ==> !isLoading
      ensures SignedIn() && outcome.Success? ==> profiles == outcome.data.GetOr([]) && error == old(error)
      ensures SignedIn() && outcome.Failure? ==>
                profiles == old(profiles) && error == Some(ErrorText(outcome.thrown, FetchFailed))
    {
      if !SignedIn() {
        return;
      }
      BeginFetch();
      CompleteFetch(outcome);
    }

    /** `createProfile`: the new row goes first, the rest keep their order. */
    method CreateProfile(outcome: Remote<Profile>) returns (created: Option<Profile>)
      modifies this
      ensures isLoading == old(isLoading)
      ensures !SignedIn() ==> created == None && profiles == old(profiles) && error == old(error)
      ensures SignedIn() && outcome.Success? ==>
                created == Some(outcome.data) && profiles == [outcome.data] + old(profiles) && error == old(error)
      ensures SignedIn() && outcome.Failure? ==>
                created == None && profiles == old(profiles) && error == Some(ErrorText(outcome.thrown, CreateFailed))
    {
      if !SignedIn() {
        return None;
      }
      match outcome
      case Success(data) =>
        profiles := [data] + profiles;
        created := Some(data);
      case Failure(thrown) =>
        error := Some(ErrorText(thrown, CreateFailed));
        created := None;
    }

    /** `updateProfile`: every profile with the id becomes the returned row. */
    method UpdateProfile(id: string, outcome: Remote<Profile>) returns (updated: Option<Profile>)
      modifies this
      ensures isLoading == old(isLoading)
      ensures outcome.Success? ==>
                updated == Some(outcome.data) && profiles == ReplaceById(old(profiles), id, outcome.data)
                && error == old(error)
      ensures outcome.Failure? ==>
                updated == None && profiles == old(profiles) && error == Some(ErrorText(outcome.thrown, UpdateFailed))
    {
      match outcome
      case Success(data) =>
        profiles := ReplaceById(profiles, id, data);
        updated := Some(data);
      case Failure(thrown) =>
        error := Some(ErrorText(thrown, UpdateFailed));
        updated := None;
    }

    /** `deleteProfile`: the profiles with the id leave the list. */
    method DeleteProfile(id: string, outcome: Remote<()>)
      modifies this
      ensures isLoading == old(isLoading)
      ensures outcome.Success? ==> profiles == RemoveById(old(profiles), id) && error == old(error)
      ensures outcome.Failure? ==>
                profiles == old(profiles) && error == Some(ErrorText(outcome.thrown, DeleteFailed))
    {
      match outcome
      case Success(_) =>
        profiles := RemoveById(profiles, id);
      case Failure(thrown) =>
        error := Some(ErrorText(thrown, DeleteFailed));
    }

    /**
     * `createShareLink`, with the random part of the token and the page origin given:
     * the link on success, the error recorded on failure.
     */
    method CreateShareLink(profileId: string, randomPart: string, origin: string, outcome: Remote<()>)
      returns (url: Option<string>)
      modifies this
      ensures profiles == old(profiles) && isLoading == old(isLoading)
      ensures outcome.Success? ==> url == Some(ShareUrl(origin, ShareToken(randomPart))) && error == old(error)
      ensures outcome.Failure? ==> url == None && error == Some(ErrorText(outcome.thrown, ShareFailed))
    {
      var shareToken := ShareToken(randomPart);
      match outcome
      case Success(_) =>
        url := Some(origin + "/shared/" + shareToken);
      case Failure(thrown) =>
        error := Some(ErrorText(thrown, ShareFailed));
        url := None;
    }

    /** `fetchSharedProfile`: the profile behind a token, or the error recorded. */
    method FetchSharedProfile(shareToken: string, outcome: Remote<Profile>) returns (shared: Option<Profile>)
      modifies this
      ensures profiles == old(profiles) && isLoading == old(isLoading)
      ensures outcome.Success? ==> shared == Some(outcome.data) && error == old(error)
      ensures outcome.Failure? ==> shared == None && error == Some(ErrorText(outcome.thrown, SharedFetchFailed))
    {
      match outcome
      case Success(data) =>
        shared := Some(data);
      case Failure(thrown) =>
        error := Some(ErrorText(thrown, SharedFetchFailed));
        shared := None;
    }
  }
}
