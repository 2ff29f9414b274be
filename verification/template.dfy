/** The template engine (`html/template` behind `templateValueReplace`) is not part
    of this model: a `Resolver` stands for it, and the only facts assumed about it
    are the four cases of usecase_test.go, gathered in `AgreesWithTests`. */
module Template {
  import opened Wrappers
  import opened JsonValue

  /** Resolves the placeholders of a template against the environment, or fails
      with the engine's message. */
  type Resolver = (string, Json) -> Result<string, string>

  const TestUrl: string := "http://localhost:8080/api/v1"

  /** The environment of the template test: `url` holds `TestUrl`. */
  function TestEnv(): Json
  {
    Obj(map["url" := Str(TestUrl)])
  }

  /** A dotted placeholder is substituted, plain text passes through, a placeholder
      without the leading dot is an error, and an undefined variable becomes empty. */
  predicate AgreesWithTests(resolve: Resolver)
  {
    && resolve("{{ .url }}/users", TestEnv()) == Success(TestUrl + "/users")
    && resolve("/users", TestEnv()) == Success("/users")
    && resolve("{{ url }}/users", TestEnv()).Failure?
    && resolve("{{ .token_value }}/users", TestEnv()) == Success("/users")
  }
}
