/** `deploy_kit/gcp_artifact_registry.py`: the image URL that
    `build_and_push_image` returns. */
module ArtifactRegistry {
  import Text
  import Split
  import Config

  /** The URL of `service`'s image in repository `repo` of `project`, in the
      Docker registry host of `region`, tagged latest. */
  function Url(region: string, project: string, repo: string, service: string): string {
    region + "-docker.pkg.dev/" + project + "/" + repo + "/" + service + ":latest"
  }

  /** `build_and_push_image(cfg, service, image_name, context_dir)`. The image
      name and context directory only feed the build, which is left out. */
  function ImageUrl(cfg: Config.DeployConfig, service: string, imageName: string, contextDir: string): (url: string)
    ensures url == Url(cfg.gcpRegion, cfg.gcpProjectId, cfg.artifactRegistryRepo, service)
  {
    Url(cfg.gcpRegion, cfg.gcpProjectId, cfg.artifactRegistryRepo, service)
  }

  /** The URL starts with the host, project, repository and service path and
      ends with the ":latest" tag. */
  lemma UrlShape(region: string, project: string, repo: string, service: string)
    ensures var path := region + "-docker.pkg.dev/" + project + "/" + repo + "/" + service;
      Text.StartsWith(Url(region, project, repo, service), path)
      && Text.EndsWith(Url(region, project, repo, service), ":latest")
  {
    var path := region + "-docker.pkg.dev/" + project + "/" + repo + "/" + service;
    var url := Url(region, project, repo, service);
    assert url == path + ":latest";
    assert url[..|path|] == path;
    assert url[|url| - 7..] == ":latest";
  }

  /** The URL's "/"-separated parts are the registry host, the project, the
      repository and the tagged service, so it determines all four. */
  lemma UrlParts(region: string, project: string, repo: string, service: string)
    requires '/' !in region && '/' !in project && '/' !in repo && '/' !in service
    ensures Split.SplitOn(Url(region, project, repo, service), '/')
         == [region + "-docker.pkg.dev", project, repo, service + ":latest"]
  {
    var host := region + "-docker.pkg.dev";
    var tagged := service + ":latest";
    NoSlashAppend(region, "-docker.pkg.dev");
    NoSlashAppend(service, ":latest");
    Split.SplitJoin([host, project, repo, tagged], '/');
    JoinFour(host, project, repo, tagged);
    UrlAsJoin(region, project, repo, service);
  }

  lemma UrlAsJoin(region: string, project: string, repo: string, service: string)
    ensures Url(region, project, repo, service)
         == (region + "-docker.pkg.dev") + "/" + project + "/" + repo + "/" + (service + ":latest")
  {
    assert "-docker.pkg.dev/" == "-docker.pkg.dev" + "/";
  }

  lemma NoSlashAppend(a: string, b: string)
    requires '/' !in a
    requires forall i :: 0 <= i < |b| ==> b[i] != '/'
    ensures '/' !in a + b
  {
  }

  lemma JoinFour(a: string, b: string, c: string, d: string)
    ensures Split.Join([a, b, c, d], "/") == a + "/" + b + "/" + c + "/" + d
  {
    assert [a, b, c, d][1..] == [b, c, d];
    assert [b, c, d][1..] == [c, d];
    assert [c, d][1..] == [d];
    calc {
      Split.Join([a, b, c, d], "/");
      a + "/" + Split.Join([b, c, d], "/");
      a + "/" + (b + "/" + Split.Join([c, d], "/"));
      a + "/" + (b + "/" + (c + "/" + d));
    }
  }

  /** The URL does not depend on the image name or the build context: for
      any of them it is the same service path tagged ":latest". */
  lemma ImageUrlIgnoresBuildInputs(cfg: Config.DeployConfig, service: string, a: string, b: string, c: string, d: string)
    ensures ImageUrl(cfg, service, a, b) == ImageUrl(cfg, service, c, d)
    ensures var path := cfg.gcpRegion + "-docker.pkg.dev/" + cfg.gcpProjectId + "/" + cfg.artifactRegistryRepo + "/" + service;
      Text.StartsWith(ImageUrl(cfg, service, a, b), path) && Text.EndsWith(ImageUrl(cfg, service, a, b), ":latest")
  {
    UrlShape(cfg.gcpRegion, cfg.gcpProjectId, cfg.artifactRegistryRepo, service);
  }

  /** When no field holds a "/", the URL's parts give the host, project,
      repository and tagged service back. */
  lemma ImageUrlParts(cfg: Config.DeployConfig, service: string, imageName: string, contextDir: string)
    requires '/' !in cfg.gcpRegion && '/' !in cfg.gcpProjectId
    requires '/' !in cfg.artifactRegistryRepo && '/' !in service
    ensures Split.SplitOn(ImageUrl(cfg, service, imageName, contextDir), '/')
         == [cfg.gcpRegion + "-docker.pkg.dev", cfg.gcpProjectId, cfg.artifactRegistryRepo, service + ":latest"]
  {
    UrlParts(cfg.gcpRegion, cfg.gcpProjectId, cfg.artifactRegistryRepo, service);
  }
}
