/** The browser-side query cache entry `['candidateProfile']` that the profile
    page reads, and the client that holds it. The mutations of the profile
    components replace this entry through updater functions; a cached field
    the model does not name lives in `rest`. */
module ProfileCache {
  import opened Common

  /** An element of the cached `educations` array, as the API returns it. */
  datatype CachedEducation = CachedEducation(
    id: int,
    candidateId: int,
    courseName: string,
    institutionName: string,
    completionDate: string)

  /** The cached profile. `None` for `educations` stands for a missing
      property, which the education updaters cannot spread or filter. */
  datatype CachedProfile = CachedProfile(
    birthDate: Option<string>,
    phone: Option<string>,
    educations: Option<seq<CachedEducation>>,
    rest: map<string, string>)

  /** `queryClient` restricted to the profile entry; `None` is an entry that
      was never fetched (`undefined`). */
  class QueryClient {
    var profile: Option<CachedProfile>

    constructor (profile: Option<CachedProfile>)
      ensures this.profile == profile
    {
      this.profile := profile;
    }
  }
}
