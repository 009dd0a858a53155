/**
 * The application's own wiring (models.js: users, posts, tags and the
 * post_tags pivot) as a concrete instance, and the scenario of a user, a
 * post and a tag loaded through it.
 */
module Example {
  import opened Wrappers
  import opened Values
  import opened Adapter
  import opened Mapping
  import opened LoaderProperties

  /** `defineModels(db)`: four mappers and the relations between them. */
  method DefineModels(db: DbAdapter) returns (user: Orm, post: Orm, tag: Orm, postTag: Orm)
    ensures user.Valid() && post.Valid() && tag.Valid() && postTag.Valid()
    ensures user.table == "users" && post.table == "posts" && tag.table == "tags" && postTag.table == "post_tags"
    ensures user.fields == ["id", "name", "email"] && post.fields == ["id", "title", "content", "userId"]
    ensures tag.fields == ["id", "name"] && postTag.fields == ["postId", "tagId"]
    ensures Wired(user, post, tag)
    ensures postTag.relations == map[] && postTag.order == []
  {
    user := new Orm(db, "users", ["id", "name", "email"]);
    post := new Orm(db, "posts", ["id", "title", "content", "userId"]);
    tag := new Orm(db, "tags", ["id", "name"]);
    postTag := new Orm(db, "post_tags", ["postId", "tagId"]);
    Wire(user, post, tag);
  }

  /** The registries models.js builds. */
  ghost predicate Wired(user: Orm, post: Orm, tag: Orm)
    reads user, post, tag
  {
    && user.relations == map["posts" := Relation.HasMany(post, "userId")]
    && user.order == ["posts"]
    && post.relations == map["users" := Relation.BelongsTo(user, "userId"),
                             "tags" := Relation.ManyToMany(tag, "post_tags", "postId", "tagId")]
    && post.order == ["users", "tags"]
    && tag.relations == map["posts" := Relation.ManyToMany(post, "post_tags", "tagId", "postId")]
    && tag.order == ["posts"]
  }

  /** The relation wiring of `defineModels`. */
  method Wire(user: Orm, post: Orm, tag: Orm)
    requires user.Valid() && post.Valid() && tag.Valid()
    requires user != post && post != tag && user != tag
    requires user.table == "users" && post.table == "posts" && tag.table == "tags"
    requires user.relations == map[] && post.relations == map[] && tag.relations == map[]
    requires user.order == [] && post.order == [] && tag.order == []
    modifies user, post, tag
    ensures user.Valid() && post.Valid() && tag.Valid()
    ensures Wired(user, post, tag)
  {
    user.HasMany(post, "userId");
    post.BelongsTo(user, "userId");
    assert post.order == ["users"];
    post.ManyToMany(tag, "post_tags", "postId", "tagId");
    tag.ManyToMany(post, "post_tags", "tagId", "postId");
  }

  const Ann: Fields := map["id" := Num(1), "name" := Str("Ann"), "email" := Str("a@x.com")]
  const Hi: Fields := map["id" := Num(1), "title" := Str("Hi"), "content" := Str("..."), "userId" := Num(1)]
  const Go: Fields := map["id" := Num(1), "name" := Str("go")]
  const Link: Fields := map["postId" := Num(1), "tagId" := Num(1)]

  /**
   * A store holding Ann, her post Hi, the tag go, and the pivot row linking
   * Hi and go, whose key columns hold numbers. (The tables `migrate` creates
   * declare those columns TEXT; see `TextKeyAttachesNothing`.)
   */
  const Scene: Store := map["users" := [Ann], "posts" := [Hi], "tags" := [Go], "post_tags" := [Link]]

  /** `User.find(1)` carries `posts: [Hi]`. */
  lemma UserScenario(kind: Engine, post: Orm)
    requires post.table == "posts"
    ensures LoadedRow(kind, Scene, map["posts" := Relation.HasMany(post, "userId")], ["posts"], Ann)
            == Loaded(Ann["posts" := Many([Hi])], None)
  {
    assert Matches(Hi, "userId", Num(1));
    assert Where([Hi], "userId", Num(1)) == [Hi];
  }

  /**
   * With the post's `userId` held as the text "1", the model's exact `=`
   * does not match it against Ann's numeric id, so Ann gets no posts: the
   * model has no type affinity.
   */
  lemma TextKeyAttachesNothing(kind: Engine, post: Orm)
    requires post.table == "posts"
    ensures var hi := Hi["userId" := Str("1")];
            LoadedRow(kind, Scene["posts" := [hi]], map["posts" := Relation.HasMany(post, "userId")], ["posts"], Ann)
            == Loaded(Ann["posts" := Many([])], None)
  {
    var hi := Hi["userId" := Str("1")];
    assert !Matches(hi, "userId", Num(1));
    assert Where([hi], "userId", Num(1)) == [];
  }

  /** `Post.find(1)` carries `users: Ann` (belongsTo) and `tags: [go]`. */
  lemma PostScenario(kind: Engine, user: Orm, tag: Orm)
    requires user.table == "users" && tag.table == "tags"
    ensures LoadedRow(kind, Scene,
                      map["users" := Relation.BelongsTo(user, "userId"),
                          "tags" := Relation.ManyToMany(tag, "post_tags", "postId", "tagId")],
                      ["users", "tags"], Hi)
            == Loaded(Hi["users" := One(Ann)]["tags" := Many([Go])], None)
  {
    assert Matches(Ann, "id", Num(1));
    assert Where([Ann], "id", Num(1)) == [Ann];
    var row := Hi["users" := One(Ann)];
    assert Prop(row, "id") == Num(1);
    assert Linked(Link, Go, "tagId", "postId", Num(1));
    assert Links(Go, [Link], "tagId", "postId", Num(1)) == [Go];
    assert Via([Go], [Link], "tagId", "postId", Num(1)) == [Go];
  }

  /** The tag go, loaded through Tag's mirror registration, lists the post Hi. */
  lemma TagSeesPost(kind: Engine, post: Orm, tag: Orm)
    requires post.table == "posts" && tag.table == "tags"
    ensures var v := Attached(kind, Scene, Relation.ManyToMany(post, "post_tags", "tagId", "postId"), Go);
            v.Success? && v.value.Many? && Hi in v.value.rows
  {
    ManyToManySymmetric(kind, Scene, post, tag, "post_tags", "postId", "tagId", Hi, Go, Link);
  }
}
