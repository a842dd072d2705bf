/** The signature catalogue: the only place that encodes technology knowledge
    (services/github_service.py, TECH_SIGNATURES and CP_KEYWORDS). */
module Signatures {

  /** One entry of TECH_SIGNATURES: a technology label and its markers. A marker
      is matched against the file names of a repository's top level and, as a
      substring, against the text of its dependency manifests. */
  datatype Signature = Signature(tech: string, markers: seq<string>)

  /** TECH_SIGNATURES in the insertion order of the Python dict. */
  const TECH_SIGNATURES: seq<Signature> := [
    // Frameworks
    Signature("Django", ["manage.py", "wsgi.py"]),
    Signature("Flask", ["app.py", "wsgi.py"]),
    Signature("React", ["next.config.js", "vite.config.js", "react-scripts"]),
    Signature("Vue", ["vue.config.js", "nuxt.config.js"]),
    Signature("Docker", ["Dockerfile", "docker-compose.yml"]),
    Signature("AWS", ["serverless.yml", "cdk.json"]),
    // Databases
    Signature("MongoDB", ["mongoose", "pymongo", "mongodb"]),
    Signature("PostgreSQL", ["psycopg2", "pg", "sequelize", "typeorm"]),
    Signature("MySQL", ["mysql2", "mysql-connector", "pymysql"]),
    Signature("Redis", ["redis", "ioredis"]),
    Signature("Firebase", ["firebase", "firebase-admin"])
  ]

  /** Keywords that mark a practice / competitive-programming repository when
      they occur in its lower-cased name. */
  const CP_KEYWORDS: seq<string> :=
    ["leetcode", "codeforces", "hackerrank", "algo", "dsa", "solutions", "competitive", "cp", "interview"]

  /** The three labels a practice repository receives, in the order they are appended. */
  const CP_LABELS: seq<string> :=
    ["Data Structures & Algorithms", "Competitive Programming", "Core Logic (C++/Java/Python)"]

  /** The dependency manifests whose text is searched for markers. */
  const PACKAGE_MANIFEST: string := "package.json"
  const REQUIREMENTS_MANIFEST: string := "requirements.txt"

  /** The build-system file whose presence vetoes the weak practice-repo signal. */
  const CMAKE_FILE: string := "CMakeLists.txt"

  /** Source-file suffixes typical of single-file competitive programming. */
  const CPP_SUFFIX: string := ".cpp"
  const CC_SUFFIX: string := ".cc"

  /** The labels of the catalogue, in catalogue order. */
  function CatalogueLabels(): (r: seq<string>)
    ensures |r| == |TECH_SIGNATURES|
    ensures forall i :: 0 <= i < |r| ==> r[i] == TECH_SIGNATURES[i].tech
  {
    seq(|TECH_SIGNATURES|, i requires 0 <= i < |TECH_SIGNATURES| => TECH_SIGNATURES[i].tech)
  }

  /** The dict keys of TECH_SIGNATURES are distinct. */
  ghost predicate DistinctTechs() {
    forall i, j :: 0 <= i < j < |TECH_SIGNATURES| ==> TECH_SIGNATURES[i].tech != TECH_SIGNATURES[j].tech
  }

  /** No catalogue label is one of the fixed practice-repo labels. */
  ghost predicate DisjointFromCpLabels() {
    forall i :: 0 <= i < |TECH_SIGNATURES| ==> TECH_SIGNATURES[i].tech !in CP_LABELS
  }

  /** Every marker is non-empty, so that nothing matches an empty dependency text. */
  ghost predicate NonEmptyMarkers() {
    forall sig, m :: sig in TECH_SIGNATURES && m in sig.markers ==> m != ""
  }

  /** No marker is the name of the package manifest. */
  ghost predicate NoManifestMarker() {
    forall sig, m :: sig in TECH_SIGNATURES && m in sig.markers ==> m != PACKAGE_MANIFEST
  }

  lemma TechsDistinct()
    ensures DistinctTechs()
  {
  }

  lemma TechsDisjoint()
    ensures DisjointFromCpLabels()
  {
  }

  lemma MarkersNonEmpty()
    ensures NonEmptyMarkers()
  {
  }

  lemma NoMarkerIsManifest()
    ensures NoManifestMarker()
  {
  }
}
