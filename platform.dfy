/** Configuration the rewriting layer imports from modules outside this model, the constants
    it hard-codes, and the library helpers it calls, taken as parameters. */
module Platform {
  import opened Js

  /** Values imported from `./models`, `../file_system/fsRoutes` and `process`:
      `SCHEME`, `BASE_DIR`, `BASE_DIR_1`, `LanguageName.ballerina` and `process.pid`. */
  datatype Config = Config(
    scheme: string,
    baseDir: string,
    baseDir1: string,
    language: string,
    pid: int)

  /** The two base directories are real (non-empty) directory names; an empty one would
      turn every global replacement keyed on it into an insertion between all characters. */
  predicate ValidConfig(c: Config) {
    c.baseDir != [] && c.baseDir1 != []
  }

  /** Library functions the core calls, with POSIX behaviour left abstract. A helper that can
      throw returns None for the throwing inputs. */
  datatype Helpers = Helpers(
    uriParsePath: string -> Option<string>,   // URI.parse(s).path (vscode-uri)
    uriFileString: string -> string,          // URI.file(p).toString() (vscode-uri)
    fileUrlToPath: string -> Option<string>,  // fileURLToPath(s) (node:url)
    decodeComponent: string -> Option<string>,// decodeURIComponent(s)
    join: seq<string> -> string,              // path.join(...parts) (node:path, posix)
    normalize: string -> string,              // path.normalize(p) (node:path, posix)
    stringify: JValue -> string,              // JSON.stringify(v)
    parse: string -> Option<JValue>)          // JSON.parse(s)

  /** `BASE_REPO_DIR` of src/bal_ls/utils.ts */
  const BASE_REPO_DIR: string := "/home" + "/my-project" + "/Cloud-editor" + "/bal-server-for-web" + "/repos"

  /** `BASE_PREFIX` inside `normalizeFilePathForSyntaxTree` */
  const BASE_PREFIX: string := "file://" + BASE_REPO_DIR + "/"

  /** The path the `serviceDesign/addResource` case writes */
  const ADD_RESOURCE_PATH: string := BASE_REPO_DIR + "/ChathuraIshara" + "/post-intergration" + "/main.bal"

  /** `fileScheme` of `resolveAbsolutePath` on a non-Windows platform */
  const FILE_SCHEME: string := "file://"

  /** `path.delimiter`-like separator chosen by `runBalServer` on a non-Windows platform */
  const DELIMITER: char := ':'
}
