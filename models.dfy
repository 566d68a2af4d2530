/** The profile record (internal/models/config.go). */
module Models {

  /** A profile: its type ("classic" or "ia"), the simulated server's name,
      the profile's own name (also its storage key), an optional company, the
      ordered user list and the creation timestamp. Field names follow the Go
      struct; the JSON keys are their lower-camel-case forms. */
  datatype Config = Config(
    Type: string,
    ServerName: string,
    ProfileName: string,
    Company: string,
    Users: seq<string>,
    CreatedAt: string)

  /** `NewConfig`: the profile is called "default", has no users, and every
      other field is empty. */
  function NewConfig(): (c: Config)
    ensures c.ProfileName == "default" && c.Users == []
    ensures c.Type == "" && c.ServerName == "" && c.Company == "" && c.CreatedAt == ""
  {
    Config("", "", "default", "", [], "")
  }
}
