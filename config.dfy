/** Application configuration. */
module Config {
  /** `K_RESULTS`: the number of search results asked for by default. */
  const KResults := 3
}
