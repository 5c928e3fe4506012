/** Fixed endpoints of the BeeHappy backend, as the extension's constants define them. */
module Config {

  const ProductionUrl: string := "https://beehappy-gfghhffadqbra6g8.eastasia-01.azurewebsites.net"
  const DevelopmentUrl: string := "https://localhost:7256"
  const EmotesEndpoint: string := "/api/emotes"

  /** `BeeHappyConstants.getApiUrl`: its `isDev` switch is hard-wired to true, so every
      content-side URL is the development base followed by the endpoint, with no separator added. */
  function GetApiUrl(endpoint: string): (url: string)
    ensures |url| == |DevelopmentUrl| + |endpoint|
    ensures url[..|DevelopmentUrl|] == DevelopmentUrl && url[|DevelopmentUrl|..] == endpoint
  {
    DevelopmentUrl + endpoint
  }
}
